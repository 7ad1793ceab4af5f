/** The `/clean` slash command (main.py:103-129): argument checks, the choice
    of the target id, and the purge filter `str(m.author.id) == str(target_id)`
    over the scanned part of the channel history. */
module Clean {
  import opened Text
  import opened Events
  import opened Wrappers

  /** A message of the channel history: its id and its author's id. */
  datatype HistoryMessage = HistoryMessage(id: nat, authorId: nat)

  /** What the command replies to the caller. */
  datatype Reply =
    | NoPermission                                               // main.py:110
    | MissingTarget                                              // main.py:114
    | Deleted(messages: seq<HistoryMessage>, target: string)     // main.py:124-127
    | PurgeFailed(error: string)                                 // main.py:129

  /** The Python truth value of the optional `user_id` argument: absent and
      empty strings are both false. */
  predicate GivenId(userId: Option<string>) {
    userId.Some? && userId.value != ""
  }

  /** `str(target_id)`, where `target_id = user.id if user else user_id`
      (main.py:117); None when neither argument is given. */
  function TargetText(user: Option<nat>, userId: Option<string>): (r: Option<string>)
    ensures r.None? <==> user.None? && !GivenId(userId)
    ensures user.Some? ==> r == Some(Decimal(user.value))
    ensures user.None? && GivenId(userId) ==> r == userId
  {
    if user.Some? then Some(Decimal(user.value))
    else if GivenId(userId) then userId
    else None
  }

  /** How many messages `purge(limit=amount)` scans: the newest `amount`
      messages, or the whole history when it is shorter; none for a limit
      below one. */
  function ScanCount(history: seq<HistoryMessage>, amount: int): (n: nat)
    ensures n <= |history| && n <= (if amount < 0 then 0 else amount)
    ensures n == |history| || n == amount || (amount < 0 && n == 0)
  {
    if amount <= 0 then 0 else if amount < |history| then amount else |history|
  }

  /** The check passed to `purge` (main.py:122). */
  predicate Matches(m: HistoryMessage, target: string) {
    Decimal(m.authorId) == target
  }

  /** The scanned messages that the check accepts, in scanning order: each
      accepted message as often as it was scanned, and no other. */
  function Matching(scanned: seq<HistoryMessage>, target: string): (r: seq<HistoryMessage>)
    ensures |r| <= |scanned|
    ensures forall m :: m in r <==> m in scanned && Matches(m, target)
    ensures forall m :: multiset(r)[m] == if Matches(m, target) then multiset(scanned)[m] else 0
  {
    if scanned == [] then []
    else
      assert scanned == [scanned[0]] + scanned[1..];
      if Matches(scanned[0], target) then [scanned[0]] + Matching(scanned[1..], target)
      else Matching(scanned[1..], target)
  }

  /** The scan count when the `amount` argument is left out (main.py:107). */
  const DEFAULT_AMOUNT: int := 100

  function AmountOrDefault(amount: Option<int>): int {
    if amount.Some? then amount.value else DEFAULT_AMOUNT
  }

  /** The messages `purge` scans for the given `amount` argument. */
  function Scanned(history: seq<HistoryMessage>, amount: Option<int>): seq<HistoryMessage> {
    history[..ScanCount(history, AmountOrDefault(amount))]
  }

  /** The command as a whole. `amount` is None when the argument is left
      out, `history` is the channel newest first, and `purge` says how the
      purge call ends. */
  function Run(canManage: bool, user: Option<nat>, userId: Option<string>, amount: Option<int>,
               history: seq<HistoryMessage>, purge: Outcome): (r: Reply)
    ensures !canManage ==> r == NoPermission
    ensures canManage && user.None? && !GivenId(userId) ==> r == MissingTarget
    ensures canManage && TargetText(user, userId).Some? && purge.Fail? ==> r == PurgeFailed(purge.error)
    ensures canManage && TargetText(user, userId).Some? && purge.Ok? ==>
      r.Deleted? && r.target == TargetText(user, userId).value
    ensures r.Deleted? ==> |r.messages| <= ScanCount(history, AmountOrDefault(amount))
    ensures amount.None? && r.Deleted? ==> |r.messages| <= 100
  {
    if !canManage then NoPermission
    else match TargetText(user, userId)
      case None => MissingTarget
      case Some(target) =>
        if purge.Fail? then PurgeFailed(purge.error)
        else Deleted(Matching(Scanned(history, amount), target), target)
  }

  /** A permitted call is turned away as missing a target exactly when no user
      is given and the user id is absent or empty. */
  lemma MissingTargetIff(user: Option<nat>, userId: Option<string>, amount: Option<int>,
                         history: seq<HistoryMessage>, purge: Outcome)
    ensures Run(true, user, userId, amount, history, purge) == MissingTarget <==>
      user.None? && (userId.None? || userId == Some(""))
  {
  }

  /** When a user is given, the user id argument is ignored and the messages
      removed, and counted in the reply, are exactly the scanned ones that this
      user wrote. */
  lemma UserPreferredAndDeletesTheirMessages(u: nat, userId: Option<string>, userId': Option<string>,
                                             amount: Option<int>, history: seq<HistoryMessage>)
    ensures Run(true, Some(u), userId, amount, history, Ok) == Run(true, Some(u), userId', amount, history, Ok)
    ensures var r := Run(true, Some(u), userId, amount, history, Ok);
      && r.Deleted? && r.target == Decimal(u)
      && forall m :: multiset(r.messages)[m] == if m.authorId == u then multiset(Scanned(history, amount))[m] else 0
  {
    forall m: HistoryMessage
      ensures Matches(m, Decimal(u)) <==> m.authorId == u
    {
      DecimalInjective(m.authorId, u);
    }
  }

  /** A user id given as text deletes the scanned messages of the author it
      names, when it is written the way `str` writes an id; otherwise (a
      leading zero, a sign, a space) it matches no message at all. */
  lemma IdTextMatches(text: string, amount: Option<int>, history: seq<HistoryMessage>)
    requires text != ""
    ensures var r := Run(true, None, Some(text), amount, history, Ok);
      && r.Deleted? && r.target == text
      && (AllDigits(text) && (text[0] == '0' ==> text == "0") ==>
            forall m :: multiset(r.messages)[m] ==
              if m.authorId == ParseDecimal(text) then multiset(Scanned(history, amount))[m] else 0)
      && (!AllDigits(text) || (text[0] == '0' && text != "0") ==> r.messages == [])
  {
    var r := Run(true, None, Some(text), amount, history, Ok);
    if AllDigits(text) && (text[0] == '0' ==> text == "0") {
      CanonicalDigits(text);
      forall m: HistoryMessage
        ensures Matches(m, text) <==> m.authorId == ParseDecimal(text)
      {
        DecimalInjective(m.authorId, ParseDecimal(text));
      }
    } else {
      NothingMatchesNothingDeleted(Scanned(history, amount), text);
    }
  }

  /** Three messages, newest first, two of them by author 5. */
  const EXAMPLE_HISTORY: seq<HistoryMessage> := [HistoryMessage(10, 5), HistoryMessage(11, 6), HistoryMessage(12, 5)]

  /** Scanning the two newest messages of the example deletes one of them. */
  lemma CleanExampleLimit()
    ensures Run(true, Some(5), None, Some(2), EXAMPLE_HISTORY, Ok) == Deleted([HistoryMessage(10, 5)], "5")
  {
  }

  /** The default amount scans the whole example and deletes both messages of
      author 5 named by the id text "5". */
  lemma CleanExampleDefault()
    ensures Run(true, None, Some("5"), None, EXAMPLE_HISTORY, Ok) == Deleted([HistoryMessage(10, 5), HistoryMessage(12, 5)], "5")
  {
  }

  /** A negative amount scans nothing, so nothing is deleted. */
  lemma CleanExampleNegative()
    ensures Run(true, Some(5), None, Some(-1), EXAMPLE_HISTORY, Ok) == Deleted([], "5")
  {
  }

  /** When the check accepts none of the scanned messages, none is deleted. */
  lemma NothingMatchesNothingDeleted(scanned: seq<HistoryMessage>, target: string)
    requires forall i :: 0 <= i < |scanned| ==> !Matches(scanned[i], target)
    ensures Matching(scanned, target) == []
  {
  }

  /** A digit string without a leading zero is the rendering of its value. */
  lemma {:induction false} CanonicalDigits(s: string)
    requires s != [] && AllDigits(s) && (s[0] == '0' ==> s == "0")
    ensures Decimal(ParseDecimal(s)) == s
    decreases |s|
  {
    var p := s[..|s| - 1];
    if p == [] {
      assert s == [s[0]];
    } else {
      assert p[0] == s[0];
      CanonicalDigits(p);
      var n := ParseDecimal(s);
      var q := ParseDecimal(p);
      assert n == q * 10 + DigitValue(s[|s| - 1]);
      PositiveWithoutLeadingZero(p);
      assert n / 10 == q && n % 10 == DigitValue(s[|s| - 1]);
      assert s == p + [s[|s| - 1]];
    }
  }

  /** A digit string whose first digit is not zero has a positive value. */
  lemma {:induction false} PositiveWithoutLeadingZero(s: string)
    requires s != [] && AllDigits(s) && s[0] != '0'
    ensures ParseDecimal(s) >= 1
    decreases |s|
  {
    var p := s[..|s| - 1];
    if p != [] {
      assert p[0] == s[0];
      PositiveWithoutLeadingZero(p);
    }
  }
}
