# LifeQuest dashboard core, modelled in Dafny

LifeQuest is a gamified daily to-do client. A user has a profile with xp,
level and coins; they create quests for today, complete them for xp and coin
rewards, and see achievements that are unlocked elsewhere. The hosted
database holds the state, and the client hooks call it.

This project models the logic the client contributes:

- **Progression** (`Progression`): a completion adds the quest's rewards to
  xp and coins. It recomputes the level as `floor(xp / 100) + 1`, and it
  announces a level up only when that level exceeds the stored one.
- **XP bar** (`ProfileHeader`): `xp % 100` out of a fixed 100, with
  JavaScript's truncating remainder.
- **Quests hook** (`Quests`): the `Quest` row, the select, insert, update
  and delete the hook sends, and `completeQuest`'s three remote steps with
  their early exits. The specification function `Complete` describes that flow, and
  the class `QuestStore` holds the hook state next to an in-memory quests
  table and profile row. Its methods are proved against those functions.
- **Quest list** (`QuestList`): the active/completed partition, the sections
  shown, and each card's buttons.
- **Create dialog** (`CreateQuestDialog`): `parseInt` on the reward fields,
  the fallback to 10 XP / 5 coins, and the form reset. The class `QuestForm`
  holds the five pieces of form state.
- **Achievements hook** (`Achievements`): the fetch that replaces the list,
  and the insert notification that prepends without de-duplication.

Things the model takes as parameters:

- Remote failures are parameters: `QueryReply` for selects, a `fails` flag
  for inserts and deletes, and `FailurePoint` for the completion steps.
- Notices are a log of `Notice` values.
- "Today" and "now" are parameters.
- Database ids are numbers handed out from `nextId`.
- `fetchQuests`, `createQuest`, `completeQuest` and `fetchAchievements` act
  only when `HasUser` holds. This copies JavaScript's `!userId`, which is also
  true for the empty string. `deleteQuest` and the achievement insert handler
  have no such guard, and neither do `DeleteQuest` and `OnInsert`.

Behaviour of the code that is easy to miss:

- **Rewards are not clamped in `handleSubmit`.** The reward inputs carry
  `min="1"`, and the browser's form validation stops a value below 1 before
  `onSubmit` fires. `handleSubmit` itself passes any non-zero parsed value
  through, negative ones included (`SubmissionDoesNotClamp`). That lemma is
  a property of `handleSubmit` alone; browser validation is not modelled.
- **`parseInt` reads a prefix.** A number input accepts "1e3" as one
  thousand, but `parseInt` stops at the "e", so the quest is submitted with
  1 XP (`SubmissionReadsExponentAsPrefix`).
- **Completion can repeat.** The Complete button is hidden for completed
  quests, but `completeQuest` has no guard, so completing twice pays twice
  (`CompletingTwicePaysTwice`).
- **Unknown ids still pay.** An update by an id that matches no row is not
  an error, so a completion still pays its rewards (`UnknownQuestStillPays`).
- **Level-up uses the stored level.** The level-up test compares the new
  level with the stored level, not with the level the stored xp implies
  (`LevelsUpIffThresholdReached`).

## Model

| member | source | states |
|---|---|---|
| Seqs.Filter | src/components/dashboard/QuestList.tsx:13-14 | `filter` keeps each element that satisfies the predicate exactly as often as it occurs in the input, and drops every other element |
| Seqs.FilterIsSubsequence | src/components/dashboard/QuestList.tsx:13-14 | a filtered list keeps the relative order of the input |
| Seqs.FilterPartition | src/components/dashboard/QuestList.tsx:13-14 | filters with complementary predicates together hold every element exactly once, so their lengths sum to the input's length |
| Seqs.SortBy | src/hooks/useQuests.ts:33 | `order` returns the same rows as a permutation, sorted by the key |
| Progression.LevelFor | src/hooks/useQuests.ts:128 | the level is the unique one whose band `[(level-1)*100, level*100)` holds xp, for every integer xp; it is at least 1 for non-negative xp |
| Progression.LevelForExceeds | src/hooks/useQuests.ts:128-149 | the level of xp is above a given level exactly when xp has reached that level times 100 |
| Progression.LevelForMonotone | src/hooks/useQuests.ts:128 | more xp never gives a lower level |
| Progression.Rewarded | src/hooks/useQuests.ts:127-138 | the written xp and coins differ from the read ones by exactly the rewards, the written level is the one whose band holds the written xp, and no other profile field changes |
| Progression.RewardedIgnoresStoredLevel | src/hooks/useQuests.ts:128 | the written profile does not depend on the previously stored level |
| Progression.RewardedMonotone | src/hooks/useQuests.ts:127-129 | with non-negative rewards, xp, coins and the level of the xp never decrease |
| Progression.RewardsAccumulate | src/hooks/useQuests.ts:127-129 | two completions in a row equal one completion with the summed rewards |
| Progression.LevelsUp | src/hooks/useQuests.ts:149 | for an updated profile whose level agrees with its xp, a level up is announced exactly when the updated xp has reached the stored level times 100 |
| Progression.LevelsUpIffThresholdReached | src/hooks/useQuests.ts:127-149 | a level up is announced exactly when the new xp reaches the stored level times 100 |
| ProfileHeader.JsRemainder | src/components/dashboard/ProfileHeader.tsx:11 | JavaScript `%` with a positive divisor: the result lies in (-b, b) with the sign of the dividend and completes a truncating division |
| ProfileHeader.XpProgress | src/components/dashboard/ProfileHeader.tsx:11 | the bar value differs from xp by a multiple of 100, lies strictly between -100 and 100, and has the sign of xp |
| ProfileHeader.BarMatchesLevelStep | src/components/dashboard/ProfileHeader.tsx:12 | the bar's denominator equals the level step of the level formula |
| ProfileHeader.XpProgressInLevel | src/components/dashboard/ProfileHeader.tsx:11 | for non-negative xp the bar value lies in [0, 100) and is the xp above the floor of the xp's level |
| ProfileHeader.ProfileDecomposes | src/components/dashboard/ProfileHeader.tsx:11-12 | for non-negative xp and a profile whose level was written by the completion formula, xp == (level - 1) * 100 + bar value |
| ProfileHeader.XpProgressZeroAtThreshold | src/components/dashboard/ProfileHeader.tsx:11 | the bar is empty exactly when xp is the lowest xp of its level, that is, a multiple of 100 |
| ProfileHeader.LevelsUpIffBarFills | src/components/dashboard/ProfileHeader.tsx:11-12 | for non-negative xp and a profile whose stored level agrees with its xp, a completion levels up exactly when bar value plus reward reaches 100 |
| Quests.NewRow | src/hooks/useQuests.ts:82-89 | the inserted row has the given id, user, title and today's date and starts uncompleted; a missing or zero reward becomes 10 XP or 5 coins and any other reward is kept, so a stored reward is never 0; a missing or empty description becomes null and any other is kept |
| Quests.SelectQuests | src/hooks/useQuests.ts:28-33 | the fetch returns exactly the user's rows dated today, each as often as in the table, ordered by creation time ascending |
| Quests.MarkCompleted | src/hooks/useQuests.ts:111-114 | the completion update sets `completed` and `completed_at = now` on every row with the id and keeps that row's other columns (owner, date, title, rewards); every other row is untouched; length and ids are kept |
| Quests.RemoveRow | src/hooks/useQuests.ts:166 | after a delete, no row has the id; every other row remains as often as before and in its order |
| Quests.Complete | src/hooks/useQuests.ts:106-162 | the table keeps its length; the first notice is the error exactly when a step fails or the profile read finds no row of the user, and then the profile is unchanged and the error is the only notice; otherwise xp and coins grew by the rewards |
| Quests.CompletionPaysRewards | src/hooks/useQuests.ts:127-154 | a successful completion adds the rewards to xp and coins and writes the level of the new xp; it keeps the other profile fields; the notices are "Quest Complete", then "Level Up" exactly when the new level exceeds the stored one |
| Quests.CompletionMarksQuest | src/hooks/useQuests.ts:111-116 | unless the quest update fails, each row with the id becomes that same row with `completed` set and `completed_at = now`, so it stays the user's and keeps its date; all other rows stay as they were |
| Quests.CompletionToastVariants | src/hooks/useQuests.ts:143-161 | a completion raises a destructive toast exactly when it fails, and then that toast alone; a successful one raises only plain toasts |
| Quests.HookToastVariants | src/hooks/useQuests.ts:38-179 | the load, create, complete and delete failure toasts are destructive; the "Quest Created" and "Quest Removed" toasts are plain |
| Quests.QuestUpdateFailureChangesNothing | src/hooks/useQuests.ts:111-160 | if the quest update fails, the table and profile are untouched and only the error notice is raised |
| Quests.PartialFailureLosesReward | src/hooks/useQuests.ts:111-141 | if the profile read or write fails, an active quest ends up completed while the profile is unchanged and only the error notice is raised |
| Quests.CompletionNeverDecreases | src/hooks/useQuests.ts:127-129 | with non-negative rewards, no outcome of a completion lowers xp, coins or the level of the xp |
| Quests.CompletingTwicePaysTwice | src/hooks/useQuests.ts:106-141 | after one completion the quest is completed; a second completion of it still succeeds and the two pay twice the xp and coin rewards |
| Quests.UnknownQuestStillPays | src/hooks/useQuests.ts:111-116 | completing an id that matches no row leaves the table as it was and still pays the rewards |
| Quests.LevelUpExample | src/hooks/useQuests.ts:127-154 | 85 xp, level 1, 0 coins plus a 30 XP / 15 coin quest gives 115 xp, level 2, 15 coins, and a level-up notice |
| Quests.NoLevelUpExample | src/hooks/useQuests.ts:127-154 | 5 xp, level 1, plus a 10 XP quest gives 15 xp, level 1, and no level-up notice |
| Quests.QuestStore.constructor | src/hooks/useQuests.ts:18-21 | the hook starts with no quests, loading on, and no notices |
| Quests.QuestStore.FetchQuests | src/hooks/useQuests.ts:23-46 | without a user nothing changes; otherwise loading ends and the list becomes today's rows of the user (none for null data), or stays as it was with a "Failed to load quests" notice |
| Quests.QuestStore.CreateQuest | src/hooks/useQuests.ts:73-104 | without a user nothing changes; otherwise the defaulted row is appended under a fresh id with a "Quest Created" notice, or the table is unchanged with an error notice; ids stay below `nextId` |
| Quests.QuestStore.CompleteQuest | src/hooks/useQuests.ts:106-162 | without a user nothing changes; otherwise the table, profile and new notices are those of `Complete` for the old state |
| Quests.QuestStore.DeleteQuest | src/hooks/useQuests.ts:164-181 | with or without a user, the rows with the id are deleted with a "Quest Removed" notice, or nothing is deleted and an error notice is raised |
| QuestList.ActiveQuests | src/components/dashboard/QuestList.tsx:13 | the active part holds every uncompleted quest as often as it occurs, and no completed quest |
| QuestList.CompletedQuests | src/components/dashboard/QuestList.tsx:14 | the completed part holds every completed quest as often as it occurs, and no active quest |
| QuestList.PartitionCoversQuests | src/components/dashboard/QuestList.tsx:13-14 | active and completed quests together hold every quest exactly once and their lengths sum to the input length; every quest is in the part its flag names, and each part holds only such quests |
| QuestList.PartitionKeepsOrder | src/components/dashboard/QuestList.tsx:13-14 | each part keeps the input's relative order |
| QuestList.CardActions | src/components/dashboard/QuestList.tsx:51-64 | Delete is offered for every quest with its id; Complete is offered exactly for uncompleted quests and forwards that quest's id, xp reward and coin reward |
| QuestList.Layout | src/components/dashboard/QuestList.tsx:73-107 | given the two parts of a list, each section appears exactly when its part is non-empty, the empty-state card exactly when the list is empty and then alone, one or two sections always show, and with both parts non-empty the active section comes before the completed one |
| QuestList.Sections | src/components/dashboard/QuestList.tsx:73-107 | the component shows one or two sections, and the empty-state card alone exactly when there are no quests |
| QuestList.SectionsShown | src/components/dashboard/QuestList.tsx:73-107 | each section appears exactly when its part is non-empty; the empty-state card appears exactly when the list is empty, and then alone; the list never renders nothing |
| QuestList.CompletedQuestListedAsCompleted | src/hooks/useQuests.ts:111-116 | a quest of today that the user completes is, after the refetch, listed among the completed quests with its other columns unchanged and no longer among the active ones, even when the profile steps fail |
| QuestList.ListAfterDelete | src/hooks/useQuests.ts:164-166 | after a delete and the refetch it triggers, no card shows the deleted id, whether the quest was active or completed; every card shows one of the user's rows dated today |
| CreateQuestDialog.ParseInt | src/components/dashboard/CreateQuestDialog.tsx:37-38 | `parseInt` of an empty field is NaN, a field of digits alone reads as the number they spell, and a negative result needs a minus sign in the field |
| CreateQuestDialog.ParseIntDigitsFirst | src/components/dashboard/CreateQuestDialog.tsx:37-38 | a field that starts with digits reads as the number those digits spell, whatever non-digit text follows ("1e3" and "1.9" read as 1) |
| CreateQuestDialog.ParseIntMinusThenDigits | src/components/dashboard/CreateQuestDialog.tsx:37-38 | a minus followed by digits reads as the negated number the digits spell, whatever non-digit text follows |
| CreateQuestDialog.ParseIntPlusThenDigits | src/components/dashboard/CreateQuestDialog.tsx:37-38 | a plus followed by digits reads as the number the digits spell, whatever non-digit text follows |
| CreateQuestDialog.ParseIntNoDigits | src/components/dashboard/CreateQuestDialog.tsx:37-38 | a field whose optional sign is not followed by a digit reads as NaN |
| CreateQuestDialog.ParseIntSkipsSpace | src/components/dashboard/CreateQuestDialog.tsx:37-38 | leading white space does not change what `parseInt` reads |
| CreateQuestDialog.ParseIntDecimal | src/components/dashboard/CreateQuestDialog.tsx:37-38 | `parseInt` reads back the decimal text of every integer, negative ones included |
| CreateQuestDialog.Submission | src/components/dashboard/CreateQuestDialog.tsx:34-39 | the title is passed verbatim and an empty description as undefined; each reward is the parsed number, or 10 / 5 when that is NaN or 0, so it is never 0 |
| CreateQuestDialog.SubmissionDoesNotClamp | src/components/dashboard/CreateQuestDialog.tsx:37-38 | any non-zero integer typed into a reward field, including a negative one, is submitted unchanged |
| CreateQuestDialog.SubmissionReadsExponentAsPrefix | src/components/dashboard/CreateQuestDialog.tsx:37 | an XP field holding "1e3", which a number input accepts as one thousand, is submitted as 1 XP |
| CreateQuestDialog.BlankRewardsStoredAsDefaults | src/hooks/useQuests.ts:86-87 | blank reward fields reach the stored row as 10 XP and 5 coins |
| CreateQuestDialog.QuestForm.constructor | src/components/dashboard/CreateQuestDialog.tsx:26-30 | the dialog starts closed, with an empty title and description, "10" XP and "5" coins |
| CreateQuestDialog.QuestForm.HandleSubmit | src/components/dashboard/CreateQuestDialog.tsx:32-45 | submit hands `createQuest` the submission of the fields as they were, then returns the form to exactly its initial state and closes the dialog |
| Achievements.SelectAchievements | src/hooks/useAchievements.ts:23-27 | the fetch returns exactly the user's rows, each as often as in the table, ordered by unlock time descending |
| Achievements.AchievementFeed.constructor | src/hooks/useAchievements.ts:15-16 | the hook starts with no achievements and loading on |
| Achievements.AchievementFeed.FetchAchievements | src/hooks/useAchievements.ts:19-40 | without a user nothing changes and loading stays on; otherwise loading ends and the list is replaced by the user's rows (none for null data), or kept with a "Failed to load achievements" notice |
| Achievements.AchievementFeed.OnInsert | src/hooks/useAchievements.ts:56-64 | an insert notification puts the new row first and keeps the old rows in order and unchanged; it does not de-duplicate, so the list always grows by one; it raises one "Achievement Unlocked" notice with the row's name and description |
| Achievements.FeedToastVariants | src/hooks/useAchievements.ts:31-35 | the load failure toast is destructive and an unlock toast is plain |
| Achievements.DuplicateInsert | src/hooks/useAchievements.ts:56-64 | two insert notifications for the same row leave two copies of it and raise two notices |

## Left out

- The realtime channels and their setup and teardown are not modelled (src/hooks/useQuests.ts:48-71, src/hooks/useAchievements.ts:42-72). A quest change leads to a refetch, which is a call to `FetchQuests`. An achievement insert is a call to `OnInsert`.
- The profile hook (src/hooks/useProfile.ts) is modelled only through its `Profile` record. Its fetch and subscription only assign rows wholesale, and the streak fields are never updated.
- The dashboard page and the achievements list component are layout and loading gates. Authentication and sign-out are foreign I/O.
- Toast rendering is not modelled. A notice keeps the numbers or names it shows, not the formatted text. For example, a null achievement description printed as "null" is not modelled.
- Clocks and date formatting are not modelled. "Today" and "now" are parameters, and timestamps are integers.
- JavaScript number semantics are not modelled. Xp, coins and rewards are mathematical integers, so floating point, NaN arithmetic and precision beyond 2^53 are absent.
- `ParseInt` skips the white space and line terminators of the ECMAScript standard, and reads only base 10. It does not detect the `0x` prefix, because a number input never holds one.
- Row-level security is not modelled. In the model, the update and delete by id reach any row with that id.
- Database ids are a counter instead of generated uuids.
- When rows share a `created_at` or `unlocked_at`, their order is whatever the model's sort yields. The database leaves that order open.
- Concurrency is not modelled: async interleaving, duplicate clicks, and state updates after unmount. Each operation runs as one sequential method.
- Browser form validation is not modelled. The title's `required` and the rewards' `min="1"` (src/components/dashboard/CreateQuestDialog.tsx:73, 96, 108) stop a submit before `handleSubmit` runs, so through the dialog a reward below 1 never reaches `createQuest`; the model's `Submission` and `HandleSubmit` describe `handleSubmit` alone.
- The inputs' `onChange` handlers and the dialog's open and cancel buttons only assign one field each. In the model they are assignments to the public fields of `QuestForm`.
- Achievement creation happens outside this code.
