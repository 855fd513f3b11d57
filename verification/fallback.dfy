/** `generateFallbackSQL`: an ordered, first-match rule engine over the
    lower-cased question, matched by substring containment, and the template
    each rule returns for a given table name. */
module Fallback {
  import opened Text
  import opened Sanitizer
  import opened Templates

  datatype Rule = TwoPeriod | SpendByPlatform | TopCampaigns | Preview

  /** The outer test of the first rule: a CAC or comparison question that
      names one of the two periods. */
  predicate AsksComparison(lq: string) {
    (Contains(lq, "cac") || Contains(lq, "compare"))
    && (Contains(lq, "last 30 days") || Contains(lq, "prior 30 days"))
  }

  /** The inner test of the first rule: both periods are named. */
  predicate NamesBothPeriods(lq: string) {
    Contains(lq, "last 30 days") && Contains(lq, "prior 30 days")
  }

  predicate AsksSpendByPlatform(lq: string) {
    Contains(lq, "spend") && Contains(lq, "platform")
  }

  predicate AsksTopCampaigns(lq: string) {
    Contains(lq, "top") && Contains(lq, "campaign")
  }

  /** The rule the question selects. A comparison question naming only one
      period passes the outer test, fails the inner one and falls through to
      the later rules. */
  function SelectRule(q: string): Rule {
    var lq := Lower(q);
    if AsksComparison(lq) && NamesBothPeriods(lq) then TwoPeriod
    else if AsksSpendByPlatform(lq) then SpendByPlatform
    else if AsksTopCampaigns(lq) then TopCampaigns
    else Preview
  }

  /** The text a rule returns: a template for the first three, a preview of
      the first 100 rows otherwise. Every one reads from the table, and
      exactly the templates open with the line break of their template
      literal. */
  function Render(rule: Rule, table: string): (r: string)
    ensures |r| > 0 && Contains(r, table)
    ensures r[0] == '\n' <==> rule != Preview
  {
    match rule
    case TwoPeriod =>
      TwoPeriodNamesTable(table);
      RenderBlock(TwoPeriodBlock, table)
    case SpendByPlatform =>
      SpendByPlatformNamesTable(table);
      RenderBlock(SpendByPlatformBlock, table)
    case TopCampaigns =>
      TopCampaignsNamesTable(table);
      RenderBlock(TopCampaignsBlock, table)
    case Preview =>
      PreviewNamesTable(table);
      "SELECT * FROM " + table + " LIMIT 100"
  }

  lemma PreviewNamesTable(table: string)
    ensures Contains("SELECT * FROM " + table + " LIMIT 100", table)
  {
    ContainsSelf(table);
    ContainsInside("SELECT * FROM ", table, " LIMIT 100", table);
  }

  /** `generateFallbackSQL`, given the table name it builds from the
      environment. */
  function FallbackSql(q: string, table: string): (r: string)
    ensures |r| > 0 && Contains(r, table)
    ensures r[0] == '\n' <==> SelectRule(q) != Preview
  {
    Render(SelectRule(q), table)
  }

  /** The fully qualified table name, `project.dataset.table` in backticks. */
  function QualifiedTable(project: string, dataset: string, tableId: string): (r: string)
    ensures |r| >= 4 && r[0] == Backtick && r[|r| - 1] == Backtick
    ensures Count(r, Backtick) == 2 + Count(project, Backtick) + Count(dataset, Backtick) + Count(tableId, Backtick)
  {
    var r := [Backtick] + project + "." + dataset + "." + tableId + [Backtick];
    CountAppend([Backtick] + project + "." + dataset + "." + tableId, [Backtick], Backtick);
    CountAppend([Backtick] + project + "." + dataset + ".", tableId, Backtick);
    CountAppend([Backtick] + project + "." + dataset, ".", Backtick);
    CountAppend([Backtick] + project + ".", dataset, Backtick);
    CountAppend([Backtick] + project, ".", Backtick);
    CountAppend([Backtick], project, Backtick);
    r
  }

  // ------------------------------------------------- the rules as a table

  /** A guard in conjunctive form: every clause needs one of its keywords. */
  type Guard = seq<seq<string>>

  predicate ClauseHolds(clause: seq<string>, lq: string) {
    exists j :: 0 <= j < |clause| && Contains(lq, clause[j])
  }

  predicate Holds(g: Guard, lq: string) {
    forall i :: 0 <= i < |g| ==> ClauseHolds(g[i], lq)
  }

  datatype Entry = Entry(guard: Guard, rule: Rule)

  /** The rules in priority order, each with its keyword guard. */
  const RuleTable: seq<Entry> := [
    Entry([["cac", "compare"], ["last 30 days"], ["prior 30 days"]], TwoPeriod),
    Entry([["spend"], ["platform"]], SpendByPlatform),
    Entry([["top"], ["campaign"]], TopCampaigns)
  ]

  /** The rule of the first entry from `k` on whose guard holds, or the
      preview when none does. */
  function FirstMatch(table: seq<Entry>, lq: string, k: nat): Rule
    decreases |table| - k
  {
    if k >= |table| then Preview
    else if Holds(table[k].guard, lq) then table[k].rule
    else FirstMatch(table, lq, k + 1)
  }

  /** First match wins: a rule other than the preview is chosen exactly when
      its entry's guard holds and no earlier entry's does. */
  lemma {:induction false} FirstMatchWins(table: seq<Entry>, lq: string, k: nat, n: nat)
    requires k <= n < |table| && table[n].rule != Preview
    requires forall m :: 0 <= m < |table| && m != n ==> table[m].rule != table[n].rule
    ensures FirstMatch(table, lq, k) == table[n].rule
      <==> Holds(table[n].guard, lq) && forall m :: k <= m < n ==> !Holds(table[m].guard, lq)
    decreases n - k
  {
    if k < n {
      if !Holds(table[k].guard, lq) {
        FirstMatchWins(table, lq, k + 1, n);
      }
    } else if !Holds(table[n].guard, lq) {
      FirstMatchFrom(table, lq, n + 1);
    }
  }

  /** The rule found from `k` on is the preview or the rule of an entry from
      `k` on. */
  lemma {:induction false} FirstMatchFrom(table: seq<Entry>, lq: string, k: nat)
    ensures FirstMatch(table, lq, k) == Preview
      || exists m :: k <= m < |table| && FirstMatch(table, lq, k) == table[m].rule
    decreases |table| - k
  {
    if k < |table| && !Holds(table[k].guard, lq) {
      FirstMatchFrom(table, lq, k + 1);
    }
  }

  /** No entry's guard holding is exactly what selects the preview. */
  lemma {:induction false} FirstMatchPreview(table: seq<Entry>, lq: string, k: nat)
    requires forall m :: 0 <= m < |table| ==> table[m].rule != Preview
    ensures FirstMatch(table, lq, k) == Preview <==> forall m :: k <= m < |table| ==> !Holds(table[m].guard, lq)
    decreases |table| - k
  {
    if k < |table| && !Holds(table[k].guard, lq) {
      FirstMatchPreview(table, lq, k + 1);
    }
  }

  /** What each entry of the rule table asks of the question. */
  lemma GuardsMean(lq: string)
    ensures Holds(RuleTable[0].guard, lq)
      <==> (Contains(lq, "cac") || Contains(lq, "compare")) && NamesBothPeriods(lq)
    ensures Holds(RuleTable[1].guard, lq) <==> AsksSpendByPlatform(lq)
    ensures Holds(RuleTable[2].guard, lq) <==> AsksTopCampaigns(lq)
  {
    FirstGuardMeans(lq);
    var g1 := RuleTable[1].guard;
    assert ClauseHolds(g1[0], lq) <==> Contains(lq, "spend") by { assert g1[0][0] == "spend"; }
    assert ClauseHolds(g1[1], lq) <==> Contains(lq, "platform") by { assert g1[1][0] == "platform"; }
    var g2 := RuleTable[2].guard;
    assert ClauseHolds(g2[0], lq) <==> Contains(lq, "top") by { assert g2[0][0] == "top"; }
    assert ClauseHolds(g2[1], lq) <==> Contains(lq, "campaign") by { assert g2[1][0] == "campaign"; }
  }

  lemma FirstGuardMeans(lq: string)
    ensures Holds(RuleTable[0].guard, lq)
      <==> (Contains(lq, "cac") || Contains(lq, "compare")) && NamesBothPeriods(lq)
  {
    var g0 := RuleTable[0].guard;
    assert ClauseHolds(g0[0], lq) <==> Contains(lq, "cac") || Contains(lq, "compare") by {
      assert g0[0][0] == "cac" && g0[0][1] == "compare";
    }
    assert ClauseHolds(g0[1], lq) <==> Contains(lq, "last 30 days") by {
      assert g0[1][0] == "last 30 days";
    }
    assert ClauseHolds(g0[2], lq) <==> Contains(lq, "prior 30 days") by {
      assert g0[2][0] == "prior 30 days";
    }
  }

  /** The nested tests of the source select the same rule as the flat,
      ordered table: the inner test of the first rule makes the "one of the
      two periods" half of the outer test redundant. */
  lemma SelectRuleIsFirstMatch(q: string)
    ensures SelectRule(q) == FirstMatch(RuleTable, Lower(q), 0)
  {
    var lq := Lower(q);
    GuardsMean(lq);
    assert FirstMatch(RuleTable, lq, 3) == Preview;
    assert FirstMatch(RuleTable, lq, 2) == (if AsksTopCampaigns(lq) then TopCampaigns else Preview);
    assert FirstMatch(RuleTable, lq, 1)
      == (if AsksSpendByPlatform(lq) then SpendByPlatform else FirstMatch(RuleTable, lq, 2));
  }

  // ------------------------------------------------------- the rule order

  /** The two-period report is chosen exactly when the question mentions CAC
      or a comparison and names both periods. */
  lemma TwoPeriodIff(q: string)
    ensures var lq := Lower(q);
      SelectRule(q) == TwoPeriod
      <==> (Contains(lq, "cac") || Contains(lq, "compare")) && Contains(lq, "last 30 days") && Contains(lq, "prior 30 days")
  {
  }

  /** A comparison question naming only one period is decided by the later
      rules, exactly as if the first rule did not exist. */
  lemma OnePeriodFallsThrough(q: string)
    requires AsksComparison(Lower(q)) && !NamesBothPeriods(Lower(q))
    ensures SelectRule(q) != TwoPeriod
    ensures SelectRule(q) == FirstMatch(RuleTable[1..], Lower(q), 0)
  {
    var lq := Lower(q);
    var rest := RuleTable[1..];
    GuardsMean(lq);
    assert rest[0] == RuleTable[1] && rest[1] == RuleTable[2] && |rest| == 2;
    assert FirstMatch(rest, lq, 2) == Preview;
    assert FirstMatch(rest, lq, 1) == (if AsksTopCampaigns(lq) then TopCampaigns else Preview);
  }

  /** The platform report is chosen when the question asks for spend by
      platform and is not a two-period comparison, even if it also asks for
      top campaigns. */
  lemma SpendBeatsTopCampaigns(q: string)
    requires !(AsksComparison(Lower(q)) && NamesBothPeriods(Lower(q)))
    requires AsksSpendByPlatform(Lower(q)) && AsksTopCampaigns(Lower(q))
    ensures SelectRule(q) == SpendByPlatform
  {
  }

  /** The campaign report is chosen exactly when the question asks for top
      campaigns and no earlier rule applies. */
  lemma TopCampaignsIff(q: string)
    ensures var lq := Lower(q);
      SelectRule(q) == TopCampaigns
      <==> AsksTopCampaigns(lq) && !AsksSpendByPlatform(lq) && !(AsksComparison(lq) && NamesBothPeriods(lq))
  {
  }

  /** The preview is chosen exactly when no entry of the rule table applies. */
  lemma PreviewIff(q: string)
    ensures SelectRule(q) == Preview
      <==> forall m :: 0 <= m < |RuleTable| ==> !Holds(RuleTable[m].guard, Lower(q))
  {
    SelectRuleIsFirstMatch(q);
    FirstMatchPreview(RuleTable, Lower(q), 0);
  }

  // --------------------------------------------------------- the outputs

  /** Matching ignores the case of the question. */
  lemma CaseInsensitive(q: string, table: string)
    ensures SelectRule(q) == SelectRule(Lower(q))
    ensures FallbackSql(q, table) == FallbackSql(Lower(q), table)
  {
    LowerIdempotent(q);
    assert SelectRule(q) == SelectRule(Lower(q));
  }

  /** The three templates open with the line break of their template literal:
      the fallback text is handed out as written, not trimmed. */
  lemma TemplatesOpenWithNewline(q: string, table: string)
    requires SelectRule(q) != Preview
    ensures FallbackSql(q, table)[0] == '\n' && !Trimmed(FallbackSql(q, table))
  {
  }

  /** The preview is the whole table, capped at 100 rows. */
  lemma PreviewText(q: string, table: string)
    requires SelectRule(q) == Preview
    ensures FallbackSql(q, table) == "SELECT * FROM " + table + " LIMIT 100"
  {
  }
}
