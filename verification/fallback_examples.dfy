/** The rule the fallback selects for each example question the interface
    offers, and for a comparison that names one period only. Each question is
    written as a concatenation of pieces, with every keyword it contains as a
    piece of its own; the pieces join to the question text. */
module FallbackExamples {
  import opened Text
  import opened Fallback

  /** A piece of the question that lower-cases to `pat` makes the
      lower-cased question contain `pat`. */
  lemma Found(q: string, x: string, w: string, y: string, pat: string)
    requires q == x + w + y && Lower(w) == pat
    ensures Contains(Lower(q), pat)
  {
    assert Lower(q)[|x|..|x| + |w|] == Lower(w);
    assert OccursAt(Lower(q), pat, |x|);
  }

  /** A piece of the question with no upper-case letter is contained in the
      lower-cased question as it is. */
  lemma FoundAsIs(q: string, x: string, w: string, y: string)
    requires q == x + w + y && forall i :: 0 <= i < |w| ==> !IsUpper(w[i])
    ensures Contains(Lower(q), w)
  {
    Found(q, x, w, y, w);
  }

  /** A keyword one of whose letters the question lacks in both cases is not
      contained in the lower-cased question. */
  lemma Lacks(q: string, pat: string, k: nat, upper: char)
    requires k < |pat| && 'a' <= pat[k] <= 'z' && upper as int == pat[k] as int - 32
    requires pat[k] !in q && upper !in q
    ensures !Contains(Lower(q), pat)
  {
    assert pat[k] !in Lower(q);
    MissingChar(Lower(q), pat, k);
  }

  /** A question without the digit 3 names neither period. */
  lemma NoPeriods(q: string)
    requires '3' !in q
    ensures !Contains(Lower(q), "last 30 days") && !Contains(Lower(q), "prior 30 days")
  {
    assert '3' !in Lower(q);
    MissingChar(Lower(q), "last 30 days", 5);
    MissingChar(Lower(q), "prior 30 days", 6);
  }

  /** A question in which no `o` or `O` is followed by a `p` or `P` does
      not contain "top" once lower-cased. */
  lemma NoTop(q: string)
    requires forall i :: 0 <= i < |q| - 1 ==> q[i] !in "oO" || q[i + 1] !in "pP"
    ensures !Contains(Lower(q), "top")
  {
    MissingPair(Lower(q), "top", 1);
  }

  /** "CAC & Metrics Comparison": both periods and CAC are named. */
  lemma CompareExample(q: string)
    requires q == "Compare " + "CAC" + " and metrics for " + "last 30 days" + " vs " + "prior 30 days"
    ensures SelectRule(q) == TwoPeriod
  {
    Found(q, "Compare ", "CAC", " and metrics for " + "last 30 days" + " vs " + "prior 30 days", "cac");
    FoundAsIs(q, "Compare " + "CAC" + " and metrics for ", "last 30 days", " vs " + "prior 30 days");
    FoundAsIs(q, "Compare " + "CAC" + " and metrics for " + "last 30 days" + " vs ", "prior 30 days", "");
  }

  /** "Spend by Platform". */
  lemma SpendExample(q: string)
    requires q == "What is the total " + "spend" + " by " + "platform" + "?"
    ensures SelectRule(q) == SpendByPlatform
  {
    SpendLacks3(q);
    NoPeriods(q);
    SpendKeywords(q);
  }

  lemma SpendLacks3(q: string)
    requires q == "What is the total " + "spend" + " by " + "platform" + "?"
    ensures '3' !in q
  {
  }

  lemma SpendKeywords(q: string)
    requires q == "What is the total " + "spend" + " by " + "platform" + "?"
    ensures Contains(Lower(q), "spend") && Contains(Lower(q), "platform")
  {
    FoundAsIs(q, "What is the total ", "spend", " by " + "platform" + "?");
    FoundAsIs(q, "What is the total " + "spend" + " by ", "platform", "?");
  }

  /** "Top Campaigns by Spend": spend is named but no platform, so the second
      rule does not apply and the third does. */
  lemma TopCampaignsExample(q: string)
    requires q == "Show me the " + "top" + " 5 " + "campaign" + "s by total spend"
    ensures SelectRule(q) == TopCampaigns
  {
    TopCampaignsLacks3(q);
    TopCampaignsLacksF(q);
    NoPeriods(q);
    Lacks(q, "platform", 4, 'F');
    TopCampaignsKeywords(q);
  }

  lemma TopCampaignsLacks3(q: string)
    requires q == "Show me the " + "top" + " 5 " + "campaign" + "s by total spend"
    ensures '3' !in q
  {
  }

  lemma TopCampaignsLacksF(q: string)
    requires q == "Show me the " + "top" + " 5 " + "campaign" + "s by total spend"
    ensures 'f' !in q && 'F' !in q
  {
  }

  lemma TopCampaignsKeywords(q: string)
    requires q == "Show me the " + "top" + " 5 " + "campaign" + "s by total spend"
    ensures Contains(Lower(q), "top") && Contains(Lower(q), "campaign")
  {
    FoundAsIs(q, "Show me the ", "top", " 5 " + "campaign" + "s by total spend");
    FoundAsIs(q, "Show me the " + "top" + " 5 ", "campaign", "s by total spend");
  }

  /** "Platform Performance": a platform without spend gets the preview. */
  lemma PlatformExample(q: string)
    requires q == "Calculate " + "the average " + "CPC and CTR " + "for each " + "platform"
    ensures SelectRule(q) == Preview
  {
    PlatformLacks3(q);
    PlatformLacksS(q);
    PlatformLacksI(q);
    NoPeriods(q);
    Lacks(q, "spend", 0, 'S');
    Lacks(q, "campaign", 5, 'I');
  }

  lemma PlatformLacks3(q: string)
    requires q == "Calculate " + "the average " + "CPC and CTR " + "for each " + "platform"
    ensures '3' !in q
  {
  }

  lemma PlatformLacksS(q: string)
    requires q == "Calculate " + "the average " + "CPC and CTR " + "for each " + "platform"
    ensures 's' !in q && 'S' !in q
  {
  }

  lemma PlatformLacksI(q: string)
    requires q == "Calculate " + "the average " + "CPC and CTR " + "for each " + "platform"
    ensures 'i' !in q && 'I' !in q
  {
  }

  /** "Conversion Trend": no rule applies. */
  lemma TrendExample(q: string)
    requires q == "What is the " + "conversion " + "rate trend " + "over the " + "six months?"
    ensures SelectRule(q) == Preview
  {
    TrendLacks3(q);
    TrendLacksP(q);
    NoPeriods(q);
    Lacks(q, "spend", 1, 'P');
    Lacks(q, "top", 2, 'P');
  }

  lemma TrendLacks3(q: string)
    requires q == "What is the " + "conversion " + "rate trend " + "over the " + "six months?"
    ensures '3' !in q
  {
  }

  lemma TrendLacksP(q: string)
    requires q == "What is the " + "conversion " + "rate trend " + "over the " + "six months?"
    ensures 'p' !in q && 'P' !in q
  {
  }

  /** "Budget Efficiency": CAC is named without a period, and campaigns
      without "top", so no rule applies. */
  lemma EfficiencyExample(q: string)
    requires q == "Which " + "campaigns " + "have the " + "lowest CAC?"
    ensures SelectRule(q) == Preview
  {
    EfficiencyLacks3(q);
    EfficiencyLacksD(q);
    EfficiencyPairs(q);
    NoPeriods(q);
    Lacks(q, "spend", 4, 'D');
    NoTop(q);
  }

  lemma EfficiencyLacks3(q: string)
    requires q == "Which " + "campaigns " + "have the " + "lowest CAC?"
    ensures '3' !in q
  {
  }

  lemma EfficiencyLacksD(q: string)
    requires q == "Which " + "campaigns " + "have the " + "lowest CAC?"
    ensures 'd' !in q && 'D' !in q
  {
  }

  lemma EfficiencyPairs(q: string)
    requires q == "Which " + "campaigns " + "have the " + "lowest CAC?"
    ensures forall i :: 0 <= i < |q| - 1 ==> q[i] !in "oO" || q[i + 1] !in "pP"
  {
  }

  /** A comparison naming only the last 30 days passes the outer test of the
      first rule, fails its inner one, and no later rule applies. */
  lemma OnePeriodExample(q: string)
    requires q == "Compare " + "CAC" + " for the " + "last 30 days"
    ensures AsksComparison(Lower(q))
    ensures SelectRule(q) == Preview
  {
    OnePeriodLacksI(q);
    OnePeriodLacksN(q);
    Lacks(q, "prior 30 days", 2, 'I');
    Lacks(q, "spend", 3, 'N');
    Lacks(q, "campaign", 5, 'I');
    OnePeriodKeywords(q);
  }

  lemma OnePeriodLacksI(q: string)
    requires q == "Compare " + "CAC" + " for the " + "last 30 days"
    ensures 'i' !in q && 'I' !in q
  {
  }

  lemma OnePeriodLacksN(q: string)
    requires q == "Compare " + "CAC" + " for the " + "last 30 days"
    ensures 'n' !in q && 'N' !in q
  {
  }

  lemma OnePeriodKeywords(q: string)
    requires q == "Compare " + "CAC" + " for the " + "last 30 days"
    ensures Contains(Lower(q), "cac") && Contains(Lower(q), "last 30 days")
  {
    Found(q, "Compare ", "CAC", " for the " + "last 30 days", "cac");
    FoundAsIs(q, "Compare " + "CAC" + " for the ", "last 30 days", "");
  }

  /** A greeting names no report and gets the preview. */
  lemma HelloExample(q: string)
    requires q == "hello"
    ensures SelectRule(q) == Preview
  {
    assert '3' !in q && 's' !in q && 'S' !in q && 't' !in q && 'T' !in q;
    NoPeriods(q);
    Lacks(q, "spend", 0, 'S');
    Lacks(q, "top", 0, 'T');
  }
}
