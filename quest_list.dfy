/** The quest list component: it splits the quests it is given into active
    and completed ones, shows a section for each non-empty part (or an
    empty-state card), and gives every card its buttons. */
module QuestList {
  import opened Common
  import opened Seqs
  import opened Profiles
  import opened Quests

  /** `quests.filter((q) => !q.completed)`: every active quest, as often as
      it occurs, and nothing else. */
  function ActiveQuests(quests: seq<Quest>): (r: seq<Quest>)
    ensures forall q :: multiset(r)[q] == if q.completed then 0 else multiset(quests)[q]
  {
    Filter(quests, (q: Quest) => !q.completed)
  }

  /** `quests.filter((q) => q.completed)`: every completed quest, as often
      as it occurs, and nothing else. */
  function CompletedQuests(quests: seq<Quest>): (r: seq<Quest>)
    ensures forall q :: multiset(r)[q] == if q.completed then multiset(quests)[q] else 0
  {
    Filter(quests, (q: Quest) => q.completed)
  }

  /** The two parts partition the list: every quest lands in the part its
      flag names, each as often as it occurs, so the lengths add up. */
  lemma PartitionCoversQuests(quests: seq<Quest>)
    ensures multiset(ActiveQuests(quests)) + multiset(CompletedQuests(quests)) == multiset(quests)
    ensures |ActiveQuests(quests)| + |CompletedQuests(quests)| == |quests|
    ensures forall q :: q in ActiveQuests(quests) <==> q in quests && !q.completed
    ensures forall q :: q in CompletedQuests(quests) <==> q in quests && q.completed
  {
    FilterPartition(quests, (q: Quest) => !q.completed, (q: Quest) => q.completed);
    forall q | q in quests
      ensures q in ActiveQuests(quests) <==> !q.completed
      ensures q in CompletedQuests(quests) <==> q.completed
    {
      assert multiset(quests)[q] > 0;
    }
  }

  /** Each part lists its quests in the order of the input. */
  lemma PartitionKeepsOrder(quests: seq<Quest>)
    ensures SubsequenceOf(ActiveQuests(quests), quests)
    ensures SubsequenceOf(CompletedQuests(quests), quests)
  {
    FilterIsSubsequence(quests, (q: Quest) => !q.completed);
    FilterIsSubsequence(quests, (q: Quest) => q.completed);
  }

  /** A card button, as the callback invocation its click makes. */
  datatype CardAction = OnComplete(questId: RowId, xpReward: int, coinReward: int) | OnDelete(questId: RowId)

  /** The buttons of one quest card: Complete for an active quest, then Delete. */
  function CardActions(q: Quest): (r: seq<CardAction>)
    ensures OnDelete(q.id) in r
    ensures q.completed <==> forall a :: a in r ==> a.OnDelete?
    ensures forall a :: a in r && a.OnComplete? ==> a == OnComplete(q.id, q.xpReward, q.coinReward)
    ensures forall a :: a in r && a.OnDelete? ==> a == OnDelete(q.id)
  {
    if q.completed then [OnDelete(q.id)]
    else
      var both := [OnComplete(q.id, q.xpReward, q.coinReward), OnDelete(q.id)];
      assert both[0] in both;
      both
  }

  /** What the component shows, top to bottom. A section's heading shows the
      number of its cards. */
  datatype Section = ActiveSection(cards: seq<Quest>) | CompletedSection(cards: seq<Quest>) | EmptyState

  /** The sections for a list of `count` quests split into `active` and
      `done`, each guarded as the component guards it. */
  function Layout(active: seq<Quest>, done: seq<Quest>, count: nat): (r: seq<Section>)
    requires |active| + |done| == count
    ensures ActiveSection(active) in r <==> active != []
    ensures CompletedSection(done) in r <==> done != []
    ensures EmptyState in r <==> count == 0
    ensures EmptyState in r <==> r == [EmptyState]
    ensures 1 <= |r| <= 2
    ensures active != [] && done != [] ==> r == [ActiveSection(active), CompletedSection(done)]
  {
    var head := if |active| > 0 then [ActiveSection(active)] else [];
    var middle := if |done| > 0 then [CompletedSection(done)] else [];
    var tail := if count == 0 then [EmptyState] else [];
    if count == 0 then
      assert head + middle + tail == [EmptyState];
      head + middle + tail
    else
      assert head + middle + tail == head + middle;
      assert EmptyState !in head && EmptyState !in middle;
      assert CompletedSection(done) !in head && ActiveSection(active) !in middle;
      head + middle + tail
  }

  /** The sections shown for a list: one or two, and the empty-state card
      alone exactly when the list is empty. */
  function Sections(quests: seq<Quest>): (r: seq<Section>)
    ensures 1 <= |r| <= 2
    ensures r == [EmptyState] <==> quests == []
  {
    PartitionLengths(quests);
    Layout(ActiveQuests(quests), CompletedQuests(quests), |quests|)
  }

  /** The two parts' lengths add up to the list's. */
  lemma PartitionLengths(quests: seq<Quest>)
    ensures |ActiveQuests(quests)| + |CompletedQuests(quests)| == |quests|
  {
    FilterPartition(quests, (q: Quest) => !q.completed, (q: Quest) => q.completed);
  }

  /** Each section appears exactly when its part is non-empty; the
      empty-state card appears exactly when there are no quests, and then
      alone; the component never shows nothing. */
  lemma SectionsShown(quests: seq<Quest>)
    ensures ActiveSection(ActiveQuests(quests)) in Sections(quests) <==> ActiveQuests(quests) != []
    ensures CompletedSection(CompletedQuests(quests)) in Sections(quests) <==> CompletedQuests(quests) != []
    ensures EmptyState in Sections(quests) <==> quests == []
    ensures EmptyState in Sections(quests) <==> Sections(quests) == [EmptyState]
    ensures Sections(quests) != []
  {
    PartitionLengths(quests);
  }

  /** A quest of today that the user completes, even when the profile steps
      after the update fail, is listed after the refetch among the completed
      quests, with its other columns unchanged, and no longer among the
      active ones. */
  lemma CompletedQuestListedAsCompleted(table: seq<Quest>, profile: Profile, userId: UserId, questId: RowId,
                                        xpReward: int, coinReward: int, now: Timestamp, failure: FailurePoint,
                                        today: Date, i: nat)
    requires failure != QuestUpdateFails
    requires i < |table| && table[i].id == questId && table[i].userId == userId && table[i].questDate == today
    ensures var c := Complete(table, profile, userId, questId, xpReward, coinReward, now, failure);
      var shown := SelectQuests(c.table, userId, today);
      var done := table[i].(completed := true, completedAt := Some(now));
      done in CompletedQuests(shown) && done !in ActiveQuests(shown)
  {
    var c := Complete(table, profile, userId, questId, xpReward, coinReward, now, failure);
    var shown := SelectQuests(c.table, userId, today);
    var done := table[i].(completed := true, completedAt := Some(now));
    CompletionMarksQuest(table, profile, userId, questId, xpReward, coinReward, now, failure);
    assert c.table[i] == done;
    assert multiset(c.table)[done] > 0;
    assert multiset(shown)[done] > 0;
    assert multiset(CompletedQuests(shown))[done] > 0;
    assert multiset(ActiveQuests(shown))[done] == 0;
  }

  /** After a successful delete and the refetch it triggers, no card shows
      the deleted id, whether the quest was active or completed. Every card
      shows one of the user's quests dated today. */
  lemma ListAfterDelete(table: seq<Quest>, id: RowId, userId: UserId, today: Date)
    ensures var shown := SelectQuests(RemoveRow(table, id), userId, today);
      forall q :: q in ActiveQuests(shown) || q in CompletedQuests(shown) ==>
        q.id != id && q.userId == userId && q.questDate == today && q in table
  {
    var remaining := RemoveRow(table, id);
    var shown := SelectQuests(remaining, userId, today);
    PartitionCoversQuests(shown);
    forall q | q in shown
      ensures q.id != id && q.userId == userId && q.questDate == today && q in table
    {
      assert multiset(shown)[q] > 0;
      assert multiset(remaining)[q] > 0;
    }
  }
}
