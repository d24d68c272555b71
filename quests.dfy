/** The quests hook: the `Quest` row, what the hook reads from and writes to
    the `quests` and `profiles` tables, and the hook itself as a class that
    holds an in-memory copy of both tables next to its own state. */
module Quests {
  import opened Common
  import opened Seqs
  import opened Profiles
  import opened Progression

  datatype Quest = Quest(
    id: RowId,
    userId: UserId,
    title: string,
    description: Option<string>,
    xpReward: int,
    coinReward: int,
    completed: bool,
    completedAt: Option<Timestamp>,
    createdAt: Timestamp,
    questDate: Date)

  /** The argument of `createQuest`; an absent optional field is `None`. */
  datatype NewQuest = NewQuest(
    title: string,
    description: Option<string>,
    xpReward: Option<int>,
    coinReward: Option<int>)

  const DefaultXpReward: int := 10
  const DefaultCoinReward: int := 5

  const LoadFailed := Error("Failed to load quests")
  const CreateFailed := Error("Failed to create quest")
  const CompleteFailed := Error("Failed to complete quest")
  const DeleteFailed := Error("Failed to delete quest")

  /** JavaScript `n || d` for an optional number: undefined and 0 fall back to `d`. */
  function NumberOr(n: Option<int>, d: int): int {
    if n.Some? && n.value != 0 then n.value else d
  }

  /** JavaScript `s || null` for an optional string: undefined and "" become null. */
  function TextOrNull(s: Option<string>): Option<string> {
    if s.Some? && s.value != "" then s else None
  }

  /** The row `createQuest` inserts. The database supplies the id, the
      creation time and the column defaults `completed = false` and
      `completed_at = null`. A missing or zero reward becomes 10 XP or 5
      coins, any other reward is kept, so a stored reward is never 0; a
      missing or empty description becomes null; the quest is dated today and
      starts active. */
  function NewRow(id: RowId, userId: UserId, q: NewQuest, today: Date, now: Timestamp): (r: Quest)
    ensures r.id == id && r.userId == userId && r.title == q.title && r.questDate == today
    ensures !r.completed && r.completedAt == None
    ensures r.xpReward != 0 && r.coinReward != 0
    ensures q.xpReward in {None, Some(0)} ==> r.xpReward == DefaultXpReward
    ensures q.xpReward !in {None, Some(0)} ==> Some(r.xpReward) == q.xpReward
    ensures q.coinReward in {None, Some(0)} ==> r.coinReward == DefaultCoinReward
    ensures q.coinReward !in {None, Some(0)} ==> Some(r.coinReward) == q.coinReward
    ensures r.description == None <==> q.description in {None, Some("")}
    ensures r.description != None ==> r.description == q.description
  {
    Quest(id, userId, q.title, TextOrNull(q.description),
          NumberOr(q.xpReward, DefaultXpReward), NumberOr(q.coinReward, DefaultCoinReward),
          false, None, now, today)
  }

  /** The select of `fetchQuests`: the user's rows dated today, ordered by
      creation time, earliest first. */
  function SelectQuests(table: seq<Quest>, userId: UserId, today: Date): (r: seq<Quest>)
    ensures forall q :: multiset(r)[q] == (if q.userId == userId && q.questDate == today then multiset(table)[q] else 0)
    ensures forall i, j :: 0 <= i < j < |r| ==> r[i].createdAt <= r[j].createdAt
  {
    SortBy(Filter(table, (q: Quest) => q.userId == userId && q.questDate == today), (q: Quest) => q.createdAt)
  }

  /** The update of `completeQuest`'s first step: every row with the id is
      marked completed now and keeps its other columns, so it stays the
      user's and dated as before; every other row is untouched; a missing id
      matches no row and is no error. */
  function MarkCompleted(table: seq<Quest>, id: RowId, now: Timestamp): (r: seq<Quest>)
    ensures |r| == |table|
    ensures forall i :: 0 <= i < |r| ==> r[i].id == table[i].id
    ensures forall i :: 0 <= i < |table| && table[i].id == id ==>
      r[i] == table[i].(completed := true, completedAt := Some(now))
    ensures forall i :: 0 <= i < |table| && table[i].id != id ==> r[i] == table[i]
  {
    seq(|table|, i requires 0 <= i < |table| =>
      if table[i].id == id then table[i].(completed := true, completedAt := Some(now)) else table[i])
  }

  /** The delete of `deleteQuest`: every row with the id goes, every other
      row stays, as often as it occurred and in its order. */
  function RemoveRow(table: seq<Quest>, id: RowId): (r: seq<Quest>)
    ensures forall q :: q in r ==> q.id != id
    ensures forall q: Quest :: q.id != id ==> multiset(r)[q] == multiset(table)[q]
    ensures SubsequenceOf(r, table)
  {
    FilterIsSubsequence(table, (q: Quest) => q.id != id);
    Filter(table, (q: Quest) => q.id != id)
  }

  /** Where `completeQuest` can fail: each of its three remote steps. */
  datatype FailurePoint = NoFailure | QuestUpdateFails | ProfileReadFails | ProfileUpdateFails

  /** The state `completeQuest` leaves behind and the notices it raises. */
  datatype Completion = Completion(table: seq<Quest>, profile: Profile, notices: seq<Notice>)

  /** `completeQuest` for a signed-in user: mark the quest completed, read
      the profile (absent unless its id is the user's), write the rewarded
      profile, then announce the completion and, when the written level
      exceeds the stored one, the level up. Each step stops the sequence on
      failure; nothing is rolled back. */
  function Complete(table: seq<Quest>, profile: Profile, userId: UserId, questId: RowId,
                    xpReward: int, coinReward: int, now: Timestamp, failure: FailurePoint): (r: Completion)
    ensures |r.table| == |table| && r.notices != []
    ensures r.notices[0] != CompleteFailed <==> failure == NoFailure && profile.id == userId
    ensures r.notices[0] == CompleteFailed ==> r.profile == profile && r.notices == [CompleteFailed]
    ensures r.notices[0] != CompleteFailed ==> r.profile.xp == profile.xp + xpReward && r.profile.coins == profile.coins + coinReward
  {
    if failure == QuestUpdateFails then Completion(table, profile, [CompleteFailed])
    else
      var marked := MarkCompleted(table, questId, now);
      if failure == ProfileReadFails || profile.id != userId then Completion(marked, profile, [CompleteFailed])
      else if failure == ProfileUpdateFails then Completion(marked, profile, [CompleteFailed])
      else
        var updated := Rewarded(profile, xpReward, coinReward);
        var notices := [QuestCompleted(xpReward, coinReward)] + if LevelsUp(profile, updated) then [LeveledUp(updated.level)] else [];
        assert notices[0] == QuestCompleted(xpReward, coinReward) != CompleteFailed;
        assert failure == NoFailure;
        Completion(marked, updated, notices)
  }

  /** A successful completion adds the rewards, writes the level of the new
      xp, announces the completion first and a level up after it exactly when
      the new level exceeds the stored level. */
  lemma CompletionPaysRewards(table: seq<Quest>, profile: Profile, userId: UserId, questId: RowId,
                              xpReward: int, coinReward: int, now: Timestamp)
    requires profile.id == userId
    ensures var c := Complete(table, profile, userId, questId, xpReward, coinReward, now, NoFailure);
      && c.profile.xp == profile.xp + xpReward
      && c.profile.coins == profile.coins + coinReward
      && c.profile.level == LevelFor(profile.xp + xpReward)
      && c.profile.id == profile.id
      && c.profile.username == profile.username && c.profile.currentStreak == profile.currentStreak
      && c.profile.longestStreak == profile.longestStreak && c.profile.lastQuestDate == profile.lastQuestDate
      && c.notices[0] == QuestCompleted(xpReward, coinReward)
      && (c.profile.level > profile.level <==> c.notices == [QuestCompleted(xpReward, coinReward), LeveledUp(c.profile.level)])
      && (c.profile.level <= profile.level <==> c.notices == [QuestCompleted(xpReward, coinReward)])
  {
  }

  /** Unless the quest update fails, every row with the id ends up completed
      at `now` with its other columns (owner, date, rewards, title) as they
      were, and every other row is left as it was. */
  lemma CompletionMarksQuest(table: seq<Quest>, profile: Profile, userId: UserId, questId: RowId,
                             xpReward: int, coinReward: int, now: Timestamp, failure: FailurePoint)
    requires failure != QuestUpdateFails
    ensures var c := Complete(table, profile, userId, questId, xpReward, coinReward, now, failure);
      && |c.table| == |table|
      && (forall i :: 0 <= i < |table| && table[i].id == questId ==>
            c.table[i] == table[i].(completed := true, completedAt := Some(now)))
      && (forall i :: 0 <= i < |table| && table[i].id != questId ==> c.table[i] == table[i])
  {
  }

  /** When the quest update fails nothing changes and only the error is shown. */
  lemma QuestUpdateFailureChangesNothing(table: seq<Quest>, profile: Profile, userId: UserId, questId: RowId,
                                         xpReward: int, coinReward: int, now: Timestamp)
    ensures Complete(table, profile, userId, questId, xpReward, coinReward, now, QuestUpdateFails)
      == Completion(table, profile, [CompleteFailed])
  {
  }

  /** A completion shows a destructive toast exactly when it fails, and then
      that toast alone; a successful one shows only plain toasts. */
  lemma CompletionToastVariants(table: seq<Quest>, profile: Profile, userId: UserId, questId: RowId,
                                xpReward: int, coinReward: int, now: Timestamp, failure: FailurePoint)
    ensures var c := Complete(table, profile, userId, questId, xpReward, coinReward, now, failure);
      var succeeded := failure == NoFailure && profile.id == userId;
      && (c.notices[0].Severity() == Destructive <==> !succeeded)
      && (succeeded ==> forall n :: n in c.notices ==> n.Severity() == Plain)
      && (forall n :: n in c.notices && n.Severity() == Destructive ==> c.notices == [n])
  {
  }

  /** The other toasts of the hook: each failure toast is destructive, the
      creation and removal toasts are plain. */
  lemma HookToastVariants()
    ensures LoadFailed.Severity() == Destructive && CreateFailed.Severity() == Destructive
    ensures CompleteFailed.Severity() == Destructive && DeleteFailed.Severity() == Destructive
    ensures QuestCreated.Severity() == Plain && QuestRemoved.Severity() == Plain
  {
  }

  /** A failure after the quest update leaves an active quest completed and
      the profile without its reward: the two writes are not atomic. */
  lemma PartialFailureLosesReward(table: seq<Quest>, profile: Profile, userId: UserId, questId: RowId,
                                  xpReward: int, coinReward: int, now: Timestamp, failure: FailurePoint, i: nat)
    requires failure == ProfileReadFails || failure == ProfileUpdateFails
    requires i < |table| && table[i].id == questId && !table[i].completed
    ensures var c := Complete(table, profile, userId, questId, xpReward, coinReward, now, failure);
      && i < |c.table| && c.table[i].completed
      && c.profile == profile
      && c.notices == [CompleteFailed]
  {
  }

  /** With non-negative rewards no outcome of a completion lowers xp, coins
      or the level that xp stands for. */
  lemma CompletionNeverDecreases(table: seq<Quest>, profile: Profile, userId: UserId, questId: RowId,
                                 xpReward: int, coinReward: int, now: Timestamp, failure: FailurePoint)
    requires xpReward >= 0 && coinReward >= 0
    ensures var c := Complete(table, profile, userId, questId, xpReward, coinReward, now, failure);
      c.profile.xp >= profile.xp && c.profile.coins >= profile.coins
      && LevelFor(c.profile.xp) >= LevelFor(profile.xp)
  {
    LevelForMonotone(profile.xp, profile.xp + xpReward);
  }

  /** Nothing rejects a quest that is already completed: completing the same
      quest twice pays its rewards twice. */
  lemma CompletingTwicePaysTwice(table: seq<Quest>, profile: Profile, userId: UserId, questId: RowId,
                                 xpReward: int, coinReward: int, now1: Timestamp, now2: Timestamp)
    requires profile.id == userId
    ensures var c1 := Complete(table, profile, userId, questId, xpReward, coinReward, now1, NoFailure);
      var c2 := Complete(c1.table, c1.profile, userId, questId, xpReward, coinReward, now2, NoFailure);
      && (forall i :: 0 <= i < |c1.table| && c1.table[i].id == questId ==> c1.table[i].completed)
      && c2.profile.xp == profile.xp + 2 * xpReward
      && c2.profile.coins == profile.coins + 2 * coinReward
      && c2.notices[0] == QuestCompleted(xpReward, coinReward)
  {
    var c1 := Complete(table, profile, userId, questId, xpReward, coinReward, now1, NoFailure);
    CompletionMarksQuest(table, profile, userId, questId, xpReward, coinReward, now1, NoFailure);
    RewardsAccumulate(profile, xpReward, coinReward, xpReward, coinReward);
  }

  /** The update by id matches no row without an error, so completing an id
      that is not in the table still pays the rewards it is given. */
  lemma UnknownQuestStillPays(table: seq<Quest>, profile: Profile, userId: UserId, questId: RowId,
                              xpReward: int, coinReward: int, now: Timestamp)
    requires profile.id == userId
    requires forall q :: q in table ==> q.id != questId
    ensures var c := Complete(table, profile, userId, questId, xpReward, coinReward, now, NoFailure);
      c.table == table && c.profile.xp == profile.xp + xpReward && c.profile.coins == profile.coins + coinReward
  {
    var marked := MarkCompleted(table, questId, now);
    assert forall i :: 0 <= i < |table| ==> table[i] in table;
    assert marked == table;
  }

  /** 85 xp at level 1 plus a 30 xp, 15 coin quest: 115 xp, 15 coins, level 2, announced. */
  lemma LevelUpExample(table: seq<Quest>, p: Profile, questId: RowId, now: Timestamp)
    requires p.xp == 85 && p.coins == 0 && p.level == 1
    ensures var c := Complete(table, p, p.id, questId, 30, 15, now, NoFailure);
      c.profile.xp == 115 && c.profile.coins == 15 && c.profile.level == 2
      && c.notices == [QuestCompleted(30, 15), LeveledUp(2)]
  {
  }

  /** 5 xp at level 1 plus a 10 xp quest: 15 xp, still level 1, no level up. */
  lemma NoLevelUpExample(table: seq<Quest>, p: Profile, questId: RowId, now: Timestamp)
    requires p.xp == 5 && p.level == 1
    ensures var c := Complete(table, p, p.id, questId, 10, 5, now, NoFailure);
      c.profile.xp == 15 && c.profile.level == 1 && c.notices == [QuestCompleted(10, 5)]
  {
  }

  /** The quests hook. `table`, `profile` and `nextId` stand for the database
      (the `quests` table, the user's `profiles` row, the next id the database
      assigns); `quests`, `loading` and `notices` are the hook's state and the
      toasts it raised. */
  class QuestStore {
    var table: seq<Quest>
    var profile: Profile
    var nextId: RowId

    const userId: Option<UserId>
    var quests: seq<Quest>
    var loading: bool
    var notices: seq<Notice>

    /** Every row id was handed out before `nextId`. */
    predicate Valid()
      reads this
    {
      forall q :: q in table ==> q.id < nextId
    }

    constructor (userId: Option<UserId>, table: seq<Quest>, profile: Profile, nextId: RowId)
      requires forall q :: q in table ==> q.id < nextId
      ensures Valid()
      ensures this.userId == userId && this.table == table && this.profile == profile && this.nextId == nextId
      ensures quests == [] && loading && notices == []
    {
      this.userId := userId;
      this.table := table;
      this.profile := profile;
      this.nextId := nextId;
      quests := [];
      loading := true;
      notices := [];
    }

    /** `fetchQuests`: without a user nothing happens; otherwise the list is
      replaced by today's rows (none for a null answer), or kept with an error
      toast, and loading ends either way. */
    method FetchQuests(today: Date, reply: QueryReply)
      modifies this`quests, this`loading, this`notices
      ensures !HasUser(userId) ==> quests == old(quests) && loading == old(loading) && notices == old(notices)
      ensures HasUser(userId) ==> !loading
      ensures HasUser(userId) && reply == Rows ==>
        quests == SelectQuests(table, userId.value, today) && notices == old(notices)
      ensures HasUser(userId) && reply == NullData ==> quests == [] && notices == old(notices)
      ensures HasUser(userId) && reply == QueryFailed ==>
        quests == old(quests) && notices == old(notices) + [LoadFailed]
    {
      if !HasUser(userId) {
        return;
      }
      match reply {
        case Rows => quests := SelectQuests(table, userId.value, today);
        case NullData => quests := [];
        case QueryFailed => notices := notices + [LoadFailed];
      }
      loading := false;
    }

    /** `createQuest`: without a user nothing happens; otherwise the row with
      its defaults is inserted under a fresh id, or an error toast is raised.
      The hook's own list changes only through the refetch that the change
      subscription triggers. */
    method CreateQuest(q: NewQuest, today: Date, now: Timestamp, fails: bool)
      requires Valid()
      modifies this`table, this`nextId, this`notices
      ensures Valid()
      ensures !HasUser(userId) ==> table == old(table) && nextId == old(nextId) && notices == old(notices)
      ensures HasUser(userId) && fails ==>
        table == old(table) && nextId == old(nextId) && notices == old(notices) + [CreateFailed]
      ensures HasUser(userId) && !fails ==>
        && table == old(table) + [NewRow(old(nextId), userId.value, q, today, now)]
        && (forall r :: r in old(table) ==> r.id != old(nextId))
        && nextId == old(nextId) + 1
        && notices == old(notices) + [QuestCreated]
    {
      if !HasUser(userId) {
        return;
      }
      if fails {
        notices := notices + [CreateFailed];
        return;
      }
      table := table + [NewRow(nextId, userId.value, q, today, now)];
      nextId := nextId + 1;
      notices := notices + [QuestCreated];
    }

    /** `completeQuest`: without a user nothing happens; otherwise the three
      remote steps run in order, as `Complete` describes. */
    method CompleteQuest(questId: RowId, xpReward: int, coinReward: int, now: Timestamp, failure: FailurePoint)
      requires Valid()
      modifies this`table, this`profile, this`notices
      ensures Valid()
      ensures !HasUser(userId) ==> table == old(table) && profile == old(profile) && notices == old(notices)
      ensures HasUser(userId) ==>
        var c := Complete(old(table), old(profile), userId.value, questId, xpReward, coinReward, now, failure);
        table == c.table && profile == c.profile && notices == old(notices) + c.notices
    {
      if !HasUser(userId) {
        return;
      }
      if failure == QuestUpdateFails {
        notices := notices + [CompleteFailed];
        return;
      }
      table := MarkCompleted(table, questId, now);
      if failure == ProfileReadFails || profile.id != userId.value {
        notices := notices + [CompleteFailed];
        return;
      }
      var current := profile;
      var updated := Rewarded(current, xpReward, coinReward);
      if failure == ProfileUpdateFails {
        notices := notices + [CompleteFailed];
        return;
      }
      profile := updated;
      notices := notices + [QuestCompleted(xpReward, coinReward)];
      if updated.level > current.level {
        notices := notices + [LeveledUp(updated.level)];
      }
    }

    /** `deleteQuest`: with or without a user, the rows with the id are
      deleted, or an error toast is raised. */
    method DeleteQuest(questId: RowId, fails: bool)
      requires Valid()
      modifies this`table, this`notices
      ensures Valid()
      ensures fails ==> table == old(table) && notices == old(notices) + [DeleteFailed]
      ensures !fails ==> table == RemoveRow(old(table), questId) && notices == old(notices) + [QuestRemoved]
    {
      if fails {
        notices := notices + [DeleteFailed];
        return;
      }
      table := RemoveRow(table, questId);
      notices := notices + [QuestRemoved];
    }
  }
}
