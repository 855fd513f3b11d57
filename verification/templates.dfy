/** The three SQL templates of the fallback generator, as lines of text with
    holes for the table name, the date windows and the metric expressions,
    and their rendering into the exact template-literal text: a leading
    newline, each line indented and ended by a newline, and the indentation of
    the closing backtick. */
module Templates {
  import opened Text
  import opened Sql

  datatype Segment =
    | Txt(s: string)
    | Table
    | Filter(w: Window)
    | Metric(e: Expr)

  datatype Line = Line(indent: nat, parts: seq<Segment>)

  /** A template literal: its lines, and the number of spaces before the
      closing backtick. */
  datatype Block = Block(lines: seq<Line>, closing: nat)

  function Spaces(n: nat): (r: string)
    ensures |r| == n && forall i :: 0 <= i < n ==> r[i] == ' '
  {
    seq(n, i => ' ')
  }

  function RenderSegment(g: Segment, table: string): string {
    match g
    case Txt(s) => s
    case Table => table
    case Filter(w) => WindowSql(w)
    case Metric(e) => Render(e)
  }

  function RenderParts(parts: seq<Segment>, table: string): string
    decreases |parts|
  {
    if |parts| == 0 then "" else RenderSegment(parts[0], table) + RenderParts(parts[1..], table)
  }

  function RenderLine(l: Line, table: string): string {
    Spaces(l.indent) + RenderParts(l.parts, table) + "\n"
  }

  function RenderLines(lines: seq<Line>, table: string): string
    decreases |lines|
  {
    if |lines| == 0 then "" else RenderLine(lines[0], table) + RenderLines(lines[1..], table)
  }

  /** The text of a template literal that opens with a line break. */
  function RenderBlock(b: Block, table: string): (r: string)
    ensures 0 < |r| && r[0] == '\n'
  {
    "\n" + RenderLines(b.lines, table) + Spaces(b.closing)
  }

  /** Segment `g` is part `j` of line `i` of template `b`. */
  predicate At(b: Block, i: int, j: int, g: Segment) {
    0 <= i < |b.lines| && 0 <= j < |b.lines[i].parts| && b.lines[i].parts[j] == g
  }

  /** Segment `g` occurs somewhere in template `b`. */
  ghost predicate SegmentIn(b: Block, g: Segment) {
    exists i, j :: At(b, i, j, g)
  }

  // ------------------------------------------------------------ containment

  lemma {:induction false} PartsContainSegment(parts: seq<Segment>, table: string, j: nat)
    requires j < |parts|
    ensures Contains(RenderParts(parts, table), RenderSegment(parts[j], table))
    decreases |parts|
  {
    var head := RenderSegment(parts[0], table);
    var tail := RenderParts(parts[1..], table);
    if j == 0 {
      ContainsSelf(head);
      ContainsInside("", head, tail, head);
      assert "" + head + tail == RenderParts(parts, table);
    } else {
      PartsContainSegment(parts[1..], table, j - 1);
      ContainsInside(head, tail, "", RenderSegment(parts[j], table));
      assert head + tail + "" == RenderParts(parts, table);
    }
  }

  lemma {:induction false} LinesContainLine(lines: seq<Line>, table: string, i: nat)
    requires i < |lines|
    ensures Contains(RenderLines(lines, table), RenderLine(lines[i], table))
    decreases |lines|
  {
    var head := RenderLine(lines[0], table);
    var tail := RenderLines(lines[1..], table);
    if i == 0 {
      ContainsSelf(head);
      ContainsInside("", head, tail, head);
      assert "" + head + tail == RenderLines(lines, table);
    } else {
      LinesContainLine(lines[1..], table, i - 1);
      ContainsInside(head, tail, "", RenderLine(lines[i], table));
      assert head + tail + "" == RenderLines(lines, table);
    }
  }

  /** Whatever a segment of a template renders to appears in the rendered
      template. */
  lemma SegmentRendered(b: Block, g: Segment, table: string)
    requires SegmentIn(b, g)
    ensures Contains(RenderBlock(b, table), RenderSegment(g, table))
  {
    var i, j :| At(b, i, j, g);
    var l := b.lines[i];
    PartsContainSegment(l.parts, table, j);
    ContainsInside(Spaces(l.indent), RenderParts(l.parts, table), "\n", RenderSegment(g, table));
    LinesContainLine(b.lines, table, i);
    ContainsTrans(RenderLines(b.lines, table), RenderLine(l, table), RenderSegment(g, table));
    ContainsInside("\n", RenderLines(b.lines, table), Spaces(b.closing), RenderSegment(g, table));
  }

  // ------------------------------------------------------------- the metrics

  /** Cost per acquisition of a period: spend over conversions. */
  const Cac := Round(Div(Col("total_spend"), NullIf(Col("total_conversions"), 0)), 2)
  /** Cost per click. */
  const Cpc := Round(Div(Col("total_spend"), NullIf(Col("total_clicks"), 0)), 2)
  /** Click-through rate in percent. */
  const Ctr := Round(Mul(Div(Col("total_clicks"), NullIf(Col("total_impressions"), 0)), Lit(100)), 2)
  /** Conversion rate in percent. */
  const Cvr := Round(Mul(Div(Col("total_conversions"), NullIf(Col("total_clicks"), 0)), Lit(100)), 2)
  /** Cost per acquisition of one campaign, over its rows. */
  const CampaignCac := Round(Div(Sum("spend"), NullIf(Sum("conversions"), 0)), 2)

  // ----------------------------------------------------------- the templates

  /** The last-30-days against prior-30-days comparison: two period
      summaries, each summing the four measures over its window, and the
      ratios computed from them. */
  const TwoPeriodBlock := Block(
    [ Line(8, [Txt("WITH current_period AS (")]),
      Line(10, [Txt("SELECT ")]),
      Line(12, [Txt("'Last 30 Days' as period,")]),
      Line(12, [Txt("SUM(spend) as total_spend,")]),
      Line(12, [Txt("SUM(conversions) as total_conversions,")]),
      Line(12, [Txt("SUM(clicks) as total_clicks,")]),
      Line(12, [Txt("SUM(impressions) as total_impressions")]),
      Line(10, [Txt("FROM "), Table]),
      Line(10, [Txt("WHERE "), Filter(LastThirtyDays)]),
      Line(8, [Txt("),")]),
      Line(8, [Txt("previous_period AS (")]),
      Line(10, [Txt("SELECT ")]),
      Line(12, [Txt("'Prior 30 Days' as period,")]),
      Line(12, [Txt("SUM(spend) as total_spend,")]),
      Line(12, [Txt("SUM(conversions) as total_conversions,")]),
      Line(12, [Txt("SUM(clicks) as total_clicks,")]),
      Line(12, [Txt("SUM(impressions) as total_impressions")]),
      Line(10, [Txt("FROM "), Table]),
      Line(10, [Txt("WHERE "), Filter(PriorThirtyDays)]),
      Line(8, [Txt(")")]),
      Line(8, [Txt("SELECT ")]),
      Line(10, [Txt("period,")]),
      Line(10, [Metric(Cac), Txt(" as CAC,")]),
      Line(10, [Metric(Cpc), Txt(" as CPC,")]),
      Line(10, [Metric(Ctr), Txt(" as CTR,")]),
      Line(10, [Metric(Cvr), Txt(" as CVR,")]),
      Line(10, [Txt("total_spend,")]),
      Line(10, [Txt("total_conversions,")]),
      Line(10, [Txt("total_clicks,")]),
      Line(10, [Txt("total_impressions")]),
      Line(8, [Txt("FROM (")]),
      Line(10, [Txt("SELECT * FROM current_period")]),
      Line(10, [Txt("UNION ALL")]),
      Line(10, [Txt("SELECT * FROM previous_period")]),
      Line(8, [Txt(")")]),
      Line(8, [Txt("ORDER BY period DESC")]) ], 6)

  /** Spend per platform over the last week. */
  const SpendByPlatformBlock := Block(
    [ Line(6, [Txt("SELECT ")]),
      Line(8, [Txt("platform,")]),
      Line(8, [Txt("SUM(spend) as total_spend,")]),
      Line(8, [Txt("COUNT(DISTINCT date) as days_active")]),
      Line(6, [Txt("FROM "), Table]),
      Line(6, [Txt("WHERE "), Filter(Since(7))]),
      Line(6, [Txt("GROUP BY platform")]),
      Line(6, [Txt("ORDER BY total_spend DESC")]) ], 4)

  /** The five campaigns with the highest spend over the last 30 days. */
  const TopCampaignsBlock := Block(
    [ Line(6, [Txt("SELECT ")]),
      Line(8, [Txt("campaign,")]),
      Line(8, [Metric(CampaignCac), Txt(" as CAC,")]),
      Line(8, [Txt("SUM(spend) as total_spend,")]),
      Line(8, [Txt("SUM(conversions) as total_conversions,")]),
      Line(8, [Txt("SUM(clicks) as total_clicks")]),
      Line(6, [Txt("FROM "), Table]),
      Line(6, [Txt("WHERE "), Filter(Since(30))]),
      Line(6, [Txt("GROUP BY campaign")]),
      Line(6, [Txt("ORDER BY total_spend DESC")]),
      Line(6, [Txt("LIMIT 5")]) ], 4)

  // -------------------------------------------------------- what they hold

  /** The two-period report filters on exactly two windows, the last 30 days
      and the prior 30 days. */
  lemma TwoPeriodWindows()
    ensures forall w :: SegmentIn(TwoPeriodBlock, Filter(w)) <==> w == LastThirtyDays || w == PriorThirtyDays
  {
    assert At(TwoPeriodBlock, 8, 1, Filter(LastThirtyDays));
    assert At(TwoPeriodBlock, 18, 1, Filter(PriorThirtyDays));
  }

  /** Its ratio columns are CAC, CPC, CTR and CVR. */
  lemma TwoPeriodMetrics()
    ensures forall e :: SegmentIn(TwoPeriodBlock, Metric(e)) <==> e == Cac || e == Cpc || e == Ctr || e == Cvr
  {
    TwoPeriodHasMetrics();
    TwoPeriodOnlyMetrics();
  }

  lemma TwoPeriodHasMetrics()
    ensures SegmentIn(TwoPeriodBlock, Metric(Cac)) && SegmentIn(TwoPeriodBlock, Metric(Cpc))
    ensures SegmentIn(TwoPeriodBlock, Metric(Ctr)) && SegmentIn(TwoPeriodBlock, Metric(Cvr))
  {
    assert At(TwoPeriodBlock, 22, 0, Metric(Cac));
    assert At(TwoPeriodBlock, 23, 0, Metric(Cpc));
    assert At(TwoPeriodBlock, 24, 0, Metric(Ctr));
    assert At(TwoPeriodBlock, 25, 0, Metric(Cvr));
  }

  lemma TwoPeriodOnlyMetrics()
    ensures forall e :: SegmentIn(TwoPeriodBlock, Metric(e)) ==> e == Cac || e == Cpc || e == Ctr || e == Cvr
  {
    forall e | SegmentIn(TwoPeriodBlock, Metric(e)) ensures e == Cac || e == Cpc || e == Ctr || e == Cvr {
      var i, j :| At(TwoPeriodBlock, i, j, Metric(e));
      TwoPeriodMetricRows(i, j, Metric(e));
      TwoPeriodMetricAtRow(i, j, Metric(e));
    }
  }

  /** Ratio columns sit first on lines 22 to 25 of the report. */
  lemma TwoPeriodMetricRows(i: int, j: int, g: Segment)
    requires At(TwoPeriodBlock, i, j, g) && g.Metric?
    ensures 22 <= i <= 25 && j == 0
  {
  }

  lemma TwoPeriodMetricAtRow(i: int, j: int, g: Segment)
    requires At(TwoPeriodBlock, i, j, g) && 22 <= i <= 25 && j == 0
    ensures g == Metric(Cac) || g == Metric(Cpc) || g == Metric(Ctr) || g == Metric(Cvr)
  {
  }

  /** The platform report has no ratio column and filters on the last week
      only. */
  lemma SpendByPlatformHolds()
    ensures forall e :: !SegmentIn(SpendByPlatformBlock, Metric(e))
    ensures forall w :: SegmentIn(SpendByPlatformBlock, Filter(w)) <==> w == Since(7)
  {
    assert At(SpendByPlatformBlock, 5, 1, Filter(Since(7)));
  }

  /** The campaign report has one ratio column, the campaign CAC, and filters
      on the last 30 days only. */
  lemma TopCampaignsHolds()
    ensures forall e :: SegmentIn(TopCampaignsBlock, Metric(e)) <==> e == CampaignCac
    ensures forall w :: SegmentIn(TopCampaignsBlock, Filter(w)) <==> w == Since(30)
  {
    assert At(TopCampaignsBlock, 2, 0, Metric(CampaignCac));
    assert At(TopCampaignsBlock, 7, 1, Filter(Since(30)));
  }

  predicate IsTemplate(b: Block) {
    b == TwoPeriodBlock || b == SpendByPlatformBlock || b == TopCampaignsBlock
  }

  /** Every ratio column of every template divides by `NULLIF(_, 0)`. */
  lemma MetricsGuarded(b: Block, e: Expr)
    requires IsTemplate(b) && SegmentIn(b, Metric(e))
    ensures Guarded(e)
  {
    if b == TwoPeriodBlock {
      TwoPeriodGuarded(e);
    } else if b == SpendByPlatformBlock {
      SpendByPlatformHolds();
    } else {
      TopCampaignsHolds();
      RatiosGuarded();
    }
  }

  lemma TwoPeriodGuarded(e: Expr)
    requires SegmentIn(TwoPeriodBlock, Metric(e))
    ensures Guarded(e)
  {
    TwoPeriodMetrics();
    RatiosGuarded();
  }

  lemma RatiosGuarded()
    ensures Guarded(Cac) && Guarded(Cpc) && Guarded(Ctr) && Guarded(Cvr) && Guarded(CampaignCac)
  {
  }

  /** Hence no ratio column of a template raises "division by zero", whatever
      the rows. */
  lemma MetricsNeverFail(b: Block, e: Expr, env: Env)
    requires IsTemplate(b) && SegmentIn(b, Metric(e))
    ensures Eval(e, env).Ok?
  {
    MetricsGuarded(b, e);
    NullSafe(e, env);
  }

  /** Every template reads from the table it is given. */
  lemma TemplatesNameTable(b: Block, table: string)
    requires IsTemplate(b)
    ensures Contains(RenderBlock(b, table), table)
  {
    if b == TwoPeriodBlock {
      TwoPeriodNamesTable(table);
    } else if b == SpendByPlatformBlock {
      SpendByPlatformNamesTable(table);
    } else {
      TopCampaignsNamesTable(table);
    }
  }

  lemma TableRendered(b: Block, table: string)
    requires SegmentIn(b, Table)
    ensures Contains(RenderBlock(b, table), table)
  {
    SegmentRendered(b, Table, table);
  }

  lemma TwoPeriodNamesTable(table: string)
    ensures Contains(RenderBlock(TwoPeriodBlock, table), table)
  {
    TwoPeriodHasTable();
    TableRendered(TwoPeriodBlock, table);
  }

  lemma TwoPeriodHasTable()
    ensures SegmentIn(TwoPeriodBlock, Table)
  {
    assert At(TwoPeriodBlock, 7, 1, Table);
  }

  lemma SpendByPlatformNamesTable(table: string)
    ensures Contains(RenderBlock(SpendByPlatformBlock, table), table)
  {
    SpendByPlatformHasTable();
    TableRendered(SpendByPlatformBlock, table);
  }

  lemma SpendByPlatformHasTable()
    ensures SegmentIn(SpendByPlatformBlock, Table)
  {
    assert At(SpendByPlatformBlock, 4, 1, Table);
  }

  lemma TopCampaignsNamesTable(table: string)
    ensures Contains(RenderBlock(TopCampaignsBlock, table), table)
  {
    TopCampaignsHasTable();
    TableRendered(TopCampaignsBlock, table);
  }

  lemma TopCampaignsHasTable()
    ensures SegmentIn(TopCampaignsBlock, Table)
  {
    assert At(TopCampaignsBlock, 6, 1, Table);
  }

  /** Both single-window reports sort by total spend, highest first, and the
      campaign report keeps five rows. */
  lemma ReportOrdering(table: string)
    ensures Contains(RenderBlock(SpendByPlatformBlock, table), "ORDER BY total_spend DESC")
    ensures Contains(RenderBlock(TopCampaignsBlock, table), "ORDER BY total_spend DESC")
    ensures Contains(RenderBlock(TopCampaignsBlock, table), "LIMIT 5")
  {
    SpendByPlatformOrdering(table);
    TopCampaignsOrdering(table);
  }

  lemma SpendByPlatformOrdering(table: string)
    ensures Contains(RenderBlock(SpendByPlatformBlock, table), "ORDER BY total_spend DESC")
  {
    assert At(SpendByPlatformBlock, 7, 0, Txt("ORDER BY total_spend DESC"));
    SegmentRendered(SpendByPlatformBlock, Txt("ORDER BY total_spend DESC"), table);
  }

  lemma TopCampaignsOrdering(table: string)
    ensures Contains(RenderBlock(TopCampaignsBlock, table), "ORDER BY total_spend DESC")
    ensures Contains(RenderBlock(TopCampaignsBlock, table), "LIMIT 5")
  {
    assert At(TopCampaignsBlock, 9, 0, Txt("ORDER BY total_spend DESC"));
    SegmentRendered(TopCampaignsBlock, Txt("ORDER BY total_spend DESC"), table);
    assert At(TopCampaignsBlock, 10, 0, Txt("LIMIT 5"));
    SegmentRendered(TopCampaignsBlock, Txt("LIMIT 5"), table);
  }

  lemma NullIfZeroText(a: Expr)
    ensures Render(NullIf(a, 0)) == "NULLIF(" + Render(a) + ", 0)"
  {
    assert DecimalText(0) == "0";
    assert ", " + "0" + ")" == ", 0)";
  }

  lemma RoundCentsText(a: Expr)
    ensures Render(Round(a, 2)) == "ROUND(" + Render(a) + ", 2)"
  {
    assert DecimalText(2) == "2";
    assert ", " + "2" + ")" == ", 2)";
  }

  /** A guarded ratio of two columns, rounded to cents, prints as
      `ROUND(n / NULLIF(d, 0), 2)`. */
  lemma RatioText(n: string, d: string)
    ensures Render(Round(Div(Col(n), NullIf(Col(d), 0)), 2)) == "ROUND(" + n + " / NULLIF(" + d + ", 0), 2)"
  {
    ColRatioText(n, d);
    RoundCentsText(Div(Col(n), NullIf(Col(d), 0)));
    assert ", 0)" + ", 2)" == ", 0), 2)";
  }

  lemma ColRatioText(n: string, d: string)
    ensures Render(Div(Col(n), NullIf(Col(d), 0))) == n + " / NULLIF(" + d + ", 0)"
  {
    NullIfZeroText(Col(d));
    assert " / " + "NULLIF(" == " / NULLIF(";
  }

  lemma HundredText()
    ensures DecimalText(100) == "100"
  {
    assert DecimalText(1) == "1";
    assert DecimalText(10) == "10";
  }

  /** A guarded ratio of two columns in percent, rounded to two places,
      prints as `ROUND(n / NULLIF(d, 0) * 100, 2)`. */
  lemma PercentText(n: string, d: string)
    ensures Render(Round(Mul(Div(Col(n), NullIf(Col(d), 0)), Lit(100)), 2))
      == "ROUND(" + n + " / NULLIF(" + d + ", 0) * 100, 2)"
  {
    var m := Mul(Div(Col(n), NullIf(Col(d), 0)), Lit(100));
    PercentInnerText(n, d);
    RoundCentsText(m);
    assert ", 0)" + " * 100" + ", 2)" == ", 0) * 100, 2)";
  }

  lemma PercentInnerText(n: string, d: string)
    ensures Render(Mul(Div(Col(n), NullIf(Col(d), 0)), Lit(100))) == n + " / NULLIF(" + d + ", 0)" + " * 100"
  {
    ColRatioText(n, d);
    HundredText();
    assert " * " + "100" == " * 100";
  }

  /** A guarded ratio of two sums, rounded to cents, prints as
      `ROUND(SUM(n) / NULLIF(SUM(d), 0), 2)`. */
  lemma SumRatioText(n: string, d: string)
    ensures Render(Round(Div(Sum(n), NullIf(Sum(d), 0)), 2))
      == "ROUND(SUM(" + n + ") / NULLIF(SUM(" + d + "), 0), 2)"
  {
    SumRatioInnerText(n, d);
    RoundCentsText(Div(Sum(n), NullIf(Sum(d), 0)));
    assert "ROUND(" + "SUM(" == "ROUND(SUM(";
    assert "), 0)" + ", 2)" == "), 0), 2)";
  }

  lemma SumRatioInnerText(n: string, d: string)
    ensures Render(Div(Sum(n), NullIf(Sum(d), 0))) == "SUM(" + n + ") / NULLIF(SUM(" + d + "), 0)"
  {
    NullIfZeroText(Sum(d));
    assert ")" + " / " + "NULLIF(" + "SUM(" == ") / NULLIF(SUM(";
    assert ")" + ", 0)" == "), 0)";
  }

  lemma NumeralTexts()
    ensures DecimalText(7) == "7" && DecimalText(30) == "30"
    ensures DecimalText(31) == "31" && DecimalText(60) == "60"
  {
    assert DecimalText(3) == "3" && DecimalText(6) == "6";
  }

  lemma DaysBackText(n: nat)
    requires n > 0
    ensures DaysBack(n) == "DATE_SUB(CURRENT_DATE(), INTERVAL " + DecimalText(n) + " DAY)"
  {
  }

  /** The windows print as the `WHERE` conditions of the source text. */
  lemma WindowTexts()
    ensures WindowSql(LastThirtyDays)
      == "date BETWEEN " + "DATE_SUB(CURRENT_DATE(), INTERVAL 30 DAY)" + " AND " + "CURRENT_DATE()"
    ensures WindowSql(PriorThirtyDays)
      == "date BETWEEN " + "DATE_SUB(CURRENT_DATE(), INTERVAL 60 DAY)" + " AND " + "DATE_SUB(CURRENT_DATE(), INTERVAL 31 DAY)"
    ensures WindowSql(Since(7)) == "date >= " + "DATE_SUB(CURRENT_DATE(), INTERVAL 7 DAY)"
    ensures WindowSql(Since(30)) == "date >= " + "DATE_SUB(CURRENT_DATE(), INTERVAL 30 DAY)"
  {
    NumeralTexts();
    DaysBackText(30);
    DaysBackText(60);
    DaysBackText(31);
    DaysBackText(7);
  }
}
