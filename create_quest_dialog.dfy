/** The create-quest dialog: five pieces of form state, and the submit
    handler that turns them into the argument of `createQuest` and resets
    them. The reward fields hold text and are read with `parseInt`. */
module CreateQuestDialog {
  import opened Common
  import opened Quests

  predicate IsDigit(c: char) {
    '0' as int <= c as int <= '9' as int
  }

  predicate AllDigits(s: string) {
    forall i :: 0 <= i < |s| ==> IsDigit(s[i])
  }

  /** The white space `parseInt` skips: the ECMAScript white space and line
      terminators, that is tab, vertical tab, form feed, space, no-break
      space, the byte order mark, the other Unicode space separators, line
      feed, carriage return, and the line and paragraph separators. */
  predicate IsSpace(c: char) {
    var n := c as int;
    n == 0x09 || n == 0x0B || n == 0x0C || n == 0x20 || n == 0xA0 || n == 0xFEFF
    || n == 0x1680 || 0x2000 <= n <= 0x200A || n == 0x202F || n == 0x205F || n == 0x3000
    || n == 0x0A || n == 0x0D || n == 0x2028 || n == 0x2029
  }

  predicate AllSpace(s: string) {
    forall i :: 0 <= i < |s| ==> IsSpace(s[i])
  }

  /** `s` without its leading white space. */
  function TrimStart(s: string): (r: string)
    ensures |r| <= |s| && (r != [] ==> r[0] in s)
    ensures r == [] || !IsSpace(r[0])
  {
    if s != [] && IsSpace(s[0]) then
      assert forall c :: c in s[1..] ==> c in s;
      TrimStart(s[1..])
    else s
  }

  /** The longest prefix of `s` made of decimal digits; all of `s` when it
      is digits only. */
  function DigitPrefix(s: string): (r: string)
    ensures |r| <= |s| && r == s[..|r|]
    ensures AllDigits(r)
    ensures |r| < |s| ==> !IsDigit(s[|r|])
    ensures AllDigits(s) ==> r == s
  {
    if s != [] && IsDigit(s[0]) then
      assert s == [s[0]] + s[1..];
      [s[0]] + DigitPrefix(s[1..])
    else []
  }

  /** The number a string of decimal digits spells, most significant first. */
  function DigitsValue(ds: string): nat
    requires AllDigits(ds)
  {
    if ds == [] then 0
    else DigitsValue(ds[..|ds| - 1]) * 10 + (ds[|ds| - 1] as int - '0' as int)
  }

  /** The digits at the front of `t`, read as a number; `None` when `t` does
      not start with a digit. */
  function ReadDigits(t: string): (r: Option<int>)
    ensures r.Some? ==> r.value >= 0
    ensures r.None? <==> t == [] || !IsDigit(t[0])
  {
    var ds := DigitPrefix(t);
    if ds == [] then None else Some(DigitsValue(ds))
  }

  /** An optional sign, then the digits that follow it. */
  function ReadSigned(t: string): (r: Option<int>)
    ensures r.Some? && r.value < 0 ==> t != [] && t[0] == '-'
  {
    if t != [] && (t[0] == '-' || t[0] == '+') then
      var magnitude := ReadDigits(t[1..]);
      if magnitude.Some? && t[0] == '-' then Some(-magnitude.value) else magnitude
    else ReadDigits(t)
  }

  /** `parseInt(s)` in base 10: leading white space, an optional sign, then
      the digits that follow, up to the first other character; `None` stands
      for NaN, the result when no digit follows. An empty field is NaN, a
      field of digits alone reads as the number they spell, and a negative
      result needs a minus sign in the field. */
  function ParseInt(s: string): (r: Option<int>)
    ensures s == [] ==> r == None
    ensures s != [] && AllDigits(s) ==> r == Some(DigitsValue(s))
    ensures r.Some? && r.value < 0 ==> '-' in s
  {
    assert s != [] && IsDigit(s[0]) ==> TrimStart(s) == s;
    ReadSigned(TrimStart(s))
  }

  function DigitChar(d: nat): (c: char)
    requires d < 10
    ensures IsDigit(c) && c as int - '0' as int == d
  {
    ('0' as int + d) as char
  }

  /** The decimal text of a natural number, without leading zeros. */
  function Digits(n: nat): (r: string)
    ensures r != [] && AllDigits(r)
  {
    if n < 10 then [DigitChar(n)] else Digits(n / 10) + [DigitChar(n % 10)]
  }

  /** The text a number input holds for an integer. */
  function Decimal(n: int): string {
    if n < 0 then "-" + Digits(-n) else Digits(n)
  }

  lemma {:induction false} DigitsValueOfDigits(n: nat)
    ensures DigitsValue(Digits(n)) == n
  {
    if n >= 10 {
      DigitsValueOfDigits(n / 10);
      var ds := Digits(n);
      assert ds[..|ds| - 1] == Digits(n / 10);
    }
  }

  /** Reading back the text of any integer gives the integer. */
  lemma ParseIntDecimal(n: int)
    ensures ParseInt(Decimal(n)) == Some(n)
  {
    var m: nat := if n < 0 then -n else n;
    var ds := Digits(m);
    DigitsValueOfDigits(m);
    assert ds + [] == ds;
    if n < 0 {
      ParseIntMinusThenDigits(ds, []);
    } else {
      ParseIntDigitsFirst(ds, []);
    }
  }

  /** A run of digits ends where a non-digit begins. */
  lemma {:induction false} DigitPrefixStopsAt(ds: string, rest: string)
    requires AllDigits(ds)
    requires rest == [] || !IsDigit(rest[0])
    ensures DigitPrefix(ds + rest) == ds
  {
    if ds == [] {
      assert ds + rest == rest;
    } else {
      var s := ds + rest;
      assert s[0] == ds[0] && s[1..] == ds[1..] + rest;
      DigitPrefixStopsAt(ds[1..], rest);
      assert ds == [ds[0]] + ds[1..];
    }
  }

  /** Leading white space does not change what `parseInt` reads. */
  lemma {:induction false} TrimStartSkipsSpace(ws: string, s: string)
    requires AllSpace(ws)
    ensures TrimStart(ws + s) == TrimStart(s)
  {
    if ws != [] {
      assert (ws + s)[0] == ws[0];
      assert (ws + s)[1..] == ws[1..] + s;
      TrimStartSkipsSpace(ws[1..], s);
    } else {
      assert ws + s == s;
    }
  }

  lemma ParseIntSkipsSpace(ws: string, s: string)
    requires AllSpace(ws)
    ensures ParseInt(ws + s) == ParseInt(s)
  {
    TrimStartSkipsSpace(ws, s);
  }

  /** Digits followed by anything that is not a digit read as the number
      the digits spell. */
  lemma ReadDigitsPrefix(ds: string, rest: string)
    requires ds != [] && AllDigits(ds)
    requires rest == [] || !IsDigit(rest[0])
    ensures ReadDigits(ds + rest) == Some(DigitsValue(ds))
  {
    DigitPrefixStopsAt(ds, rest);
  }

  /** Without leading white space, `parseInt` starts at the sign. */
  lemma ParseIntUnpadded(s: string)
    requires s != [] && !IsSpace(s[0])
    ensures ParseInt(s) == ReadSigned(s)
  {
  }

  /** `parseInt` reads the run of digits at the start of the field and
      ignores whatever follows: "1e3" and "1.9" read as 1, "007" as 7. */
  lemma ParseIntDigitsFirst(ds: string, rest: string)
    requires ds != [] && AllDigits(ds)
    requires rest == [] || !IsDigit(rest[0])
    ensures ParseInt(ds + rest) == Some(DigitsValue(ds))
  {
    var t := ds + rest;
    ReadDigitsPrefix(ds, rest);
    assert t[0] == ds[0];
    ParseIntUnpadded(t);
  }

  /** A leading sign is consumed, and a minus negates what follows it. */
  lemma ParseIntAfterSign(sign: string, t: string)
    requires sign == "+" || sign == "-"
    ensures var m := ReadDigits(t);
      ParseInt(sign + t) == if sign == "-" && m.Some? then Some(-m.value) else m
  {
    var s := sign + t;
    assert s[0] == sign[0] && s[1..] == t;
    ParseIntUnpadded(s);
  }

  lemma SignedReading(sign: string, t: string, v: int)
    requires sign == "+" || sign == "-"
    requires ReadDigits(t) == Some(v)
    ensures ParseInt(sign + t) == Some(if sign == "-" then -v else v)
  {
    ParseIntAfterSign(sign, t);
  }

  /** After a minus, the digits that follow are read up to the first other
      character and negated: "-007" reads as -7, "-3px" as -3. */
  lemma ParseIntMinusThenDigits(ds: string, rest: string)
    requires ds != [] && AllDigits(ds)
    requires rest == [] || !IsDigit(rest[0])
    ensures ParseInt("-" + (ds + rest)) == Some(-(DigitsValue(ds) as int))
  {
    ReadDigitsPrefix(ds, rest);
    SignedReading("-", ds + rest, DigitsValue(ds));
  }

  /** A plus sign changes nothing: "+3px" reads as 3. */
  lemma ParseIntPlusThenDigits(ds: string, rest: string)
    requires ds != [] && AllDigits(ds)
    requires rest == [] || !IsDigit(rest[0])
    ensures ParseInt("+" + (ds + rest)) == Some(DigitsValue(ds))
  {
    ReadDigitsPrefix(ds, rest);
    SignedReading("+", ds + rest, DigitsValue(ds));
  }

  /** With no digit right after the optional sign, `parseInt` gives NaN:
      ".5", "e3", "-x" and "--1" all read as NaN. */
  lemma ParseIntNoDigits(sign: string, rest: string)
    requires sign == "" || sign == "+" || sign == "-"
    requires rest == [] || !IsDigit(rest[0])
    requires sign == "" && rest != [] ==> !IsSpace(rest[0]) && rest[0] != '-' && rest[0] != '+'
    ensures ParseInt(sign + rest) == None
  {
    if sign == "" {
      assert sign + rest == rest;
    } else {
      ParseIntAfterSign(sign, rest);
    }
  }

  /** A number input may hold "1e3", which is one thousand; `parseInt` reads
      it as 1, so the quest is submitted with 1 XP. */
  lemma SubmissionReadsExponentAsPrefix(title: string, description: string, coinReward: string)
    ensures Submission(title, description, "1e3", coinReward).xpReward == Some(1)
  {
    var ds, rest := "1", "e3";
    assert DigitsValue(ds) == 1 by {
      assert ds[..0] == [];
    }
    assert rest[0] == 'e';
    ParseIntDigitsFirst(ds, rest);
    assert ds + rest == "1e3";
  }

  /** The argument `handleSubmit` passes to `createQuest` for the given form
      fields. The title goes through verbatim, an empty description as
      undefined; each reward is the parsed number, or 10 XP or 5 coins when
      that is NaN or 0, so a submitted reward is never 0. */
  function Submission(title: string, description: string, xpReward: string, coinReward: string): (r: NewQuest)
    ensures r.title == title
    ensures r.description == None <==> description == ""
    ensures r.description != None ==> r.description == Some(description)
    ensures r.xpReward.Some? && r.xpReward.value != 0
    ensures r.coinReward.Some? && r.coinReward.value != 0
    ensures ParseInt(xpReward) in {None, Some(0)} ==> r.xpReward == Some(DefaultXpReward)
    ensures ParseInt(xpReward) !in {None, Some(0)} ==> r.xpReward == ParseInt(xpReward)
    ensures ParseInt(coinReward) in {None, Some(0)} ==> r.coinReward == Some(DefaultCoinReward)
    ensures ParseInt(coinReward) !in {None, Some(0)} ==> r.coinReward == ParseInt(coinReward)
  {
    NewQuest(
      title,
      if description == "" then None else Some(description),
      Some(NumberOr(ParseInt(xpReward), DefaultXpReward)),
      Some(NumberOr(ParseInt(coinReward), DefaultCoinReward)))
  }

  /** No clamping: any non-zero integer typed into a reward field, a
      negative one included, is submitted unchanged. */
  lemma SubmissionDoesNotClamp(title: string, description: string, xp: int, coins: int)
    requires xp != 0 && coins != 0
    ensures Submission(title, description, Decimal(xp), Decimal(coins)).xpReward == Some(xp)
    ensures Submission(title, description, Decimal(xp), Decimal(coins)).coinReward == Some(coins)
  {
    ParseIntDecimal(xp);
    ParseIntDecimal(coins);
  }

  /** Blank reward fields reach the table as 10 XP and 5 coins: the form
      falls back first, and `createQuest` keeps what it is given. */
  lemma BlankRewardsStoredAsDefaults(id: RowId, userId: UserId, title: string, description: string,
                                     today: Date, now: Timestamp)
    ensures var row := NewRow(id, userId, Submission(title, description, "", ""), today, now);
      row.xpReward == 10 && row.coinReward == 5
  {
  }

  /** The dialog's state: whether it is open and the four form fields, as
      the text the inputs hold. */
  class QuestForm {
    var open: bool
    var title: string
    var description: string
    var xpReward: string
    var coinReward: string

    /** The state the dialog starts in and returns to after a submit. */
    predicate IsInitial()
      reads this
    {
      !open && title == "" && description == "" && xpReward == "10" && coinReward == "5"
    }

    constructor ()
      ensures IsInitial()
    {
      open := false;
      title := "";
      description := "";
      xpReward := "10";
      coinReward := "5";
    }

    /** `handleSubmit`: hands the current fields to `createQuest`, then
      clears the form and closes the dialog. */
    method HandleSubmit() returns (request: NewQuest)
      modifies this
      ensures request == Submission(old(title), old(description), old(xpReward), old(coinReward))
      ensures IsInitial()
    {
      request := Submission(title, description, xpReward, coinReward);
      assert request == Submission(old(title), old(description), old(xpReward), old(coinReward));
      title, description, xpReward, coinReward, open := "", "", "10", "5", false;
    }
  }
}
