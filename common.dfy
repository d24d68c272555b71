/** Value types shared by the dashboard's hooks and components: identifiers,
    calendar dates and instants, the optional wrapper used for nullable
    columns and optional arguments, the toasts the hooks raise, and the three
    ways the hosted database can answer a select. */
module Common {

  type UserId = string

  /** Row ids are generated by the database; the model numbers them. */
  type RowId = nat

  /** A calendar date `YYYY-MM-DD`; the code only compares dates for equality. */
  type Date = string

  /** An instant, ordered the way the database orders a timestamp column. */
  type Timestamp = int

  datatype Option<T> = None | Some(value: T)

  /** JavaScript's `!userId` is true both for `undefined` and for the empty
      string, so a hook only acts for a user id that is present and non-empty. */
  predicate HasUser(userId: Option<UserId>) {
    userId.Some? && userId.value != ""
  }

  /** The two toast variants the code uses. */
  datatype Variant = Plain | Destructive

  /** One toast raised by a hook, kept as a log entry. */
  datatype Notice =
    | QuestCreated
    | QuestCompleted(xpReward: int, coinReward: int)
    | LeveledUp(level: int)
    | QuestRemoved
    | AchievementUnlocked(name: string, description: Option<string>)
    | Error(message: string)
  {
    /** Every failure toast is titled "Error" and is destructive; the others are plain. */
    function Severity(): Variant {
      if Error? then Destructive else Plain
    }
  }

  /** How a select on the database answered: with rows, with a null `data`
      and no error, or with an error. */
  datatype QueryReply = Rows | NullData | QueryFailed
}
