/** The bot's fixed configuration (main.py:35-38) and the fixed texts it
    sends or passes to the platform (main.py:74, 78, 91). */
module Config {
  import opened Text

  /** Names whose mention (user name or role name, lowercased) triggers moderation. */
  const BLOCKED_NAMES: seq<string> := ["tripex", "ma1eja", "owner"]

  /** The role an author must hold, compared case-sensitively, to be punished. */
  const TARGET_ROLE_NAME: string := "Members"

  const TIMEOUT_SECONDS: nat := 1800

  const TICKET_CATEGORY_ID: nat := 1337877093735731291

  const TIMEOUT_REASON: string := "Mentioned protected user or role"

  /** The notice of main.py:78 is `<display name>` followed by these three parts. */
  const NOTICE_LEAD: string := " has been timed out for "
  const NOTICE_DURATION: string := "30 minutes"
  const NOTICE_REASON: string := " for mentioning a protected user or role."

  const TICKET_GREETING: string := "Hello! Please tell us your problem here. Tripex will reply as soon as he can."

  /** The channel notice posted after an enforced timeout: it begins with the
      member's display name, always speaks of "30 minutes" and gives the reason. */
  function Notice(displayName: string): (r: string)
    ensures |r| > |displayName| && r[..|displayName|] == displayName
    ensures Contains(r, "30 minutes")
    ensures Contains(r, " for mentioning a protected user or role.")
  {
    var r := displayName + NOTICE_LEAD + NOTICE_DURATION + NOTICE_REASON;
    var k := |displayName + NOTICE_LEAD|;
    assert r[k..k + |NOTICE_DURATION|] == NOTICE_DURATION;
    assert OccursAt(r, "30 minutes", k);
    var j := |displayName + NOTICE_LEAD + NOTICE_DURATION|;
    assert r[j..j + |NOTICE_REASON|] == NOTICE_REASON;
    assert OccursAt(r, " for mentioning a protected user or role.", j);
    r
  }

  /** The duration the notice speaks of is TIMEOUT_SECONDS written in minutes. */
  lemma NoticeDurationIsTimeout()
    ensures NOTICE_DURATION == Decimal(TIMEOUT_SECONDS / 60) + " minutes"
  {
    assert Decimal(3) == "3";
    assert Decimal(30) == Decimal(3) + [DigitChar(0)];
  }
}
