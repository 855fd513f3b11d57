# Natural-language-to-SQL layer of 8figure, in Dafny

This project models the translation layer of the 8figure analytics
application (`lib/nlToSql.ts`). The layer turns a question typed in plain
language into a BigQuery query over the advertising-spend table. It has three
parts, each modelled as pure functions over `string` (`seq<char>`):

- **The sanitizer** (`normalizeSqlOutput`) cleans the language model's answer.
  It trims the text and strips a triple-backtick code fence, together with its
  language tag and line breaks. It then strips one outer pair of matching
  quotes, trims again, and closes an unbalanced backtick. The two regular
  expressions of the source are written out as explicit prefix and suffix cuts.
  The cuts are specified by the leftmost-match semantics of the patterns
  (`Sanitizer`, with `Text` for trimming, counting and containment).
- **The fallback rule engine** (`generateFallbackSQL`) lower-cases the question
  and picks the first of four rules whose keywords it contains (`Fallback`).
  - The rule order is proved equal to an explicit, ordered rule table.
  - Each rule renders a fixed SQL template around the table name (`Templates`).
  - The templates are modelled as structured lines of segments: literal text,
    the table, a date-window filter, or a metric expression. This makes it
    possible to prove which windows and which metrics a template uses.
  - The date windows and the metric expressions have their own meaning
    (`Sql`):
    - a window is a set of day ages;
    - a metric is an expression evaluated with SQL's NULL propagation and
      division-by-zero error.

    This is what lets the model prove that the two comparison periods are
    disjoint, and that every ratio is guarded by `NULLIF(…, 0)` and so never
    fails.
- **The dispatch** (`convertNLToSQL`) takes the outcome of the model-provider
  request as a parameter (`Translator.Upstream`). An answer is sanitized. A
  failure of any kind yields the fallback query.

Where the code departs from its own prompt and comments, the model follows the
code:
- **The fallback is not sanitized.** The fallback text is returned as written,
  not passed through the sanitizer (`Translator.FallbackBypassesSanitizer`).
  So the three report templates come out with their leading line break and
  indentation.
- **The output can be empty.** The result is not always non-empty: an empty
  or blank answer from the model becomes the empty query
  (`Translator.EmptyAnswer`). Only the fallback path always names the table.
- **The sanitizer is not idempotent.** Two counterexamples are proved:
  - `""x""` sanitizes to `"x"`, and `"x"` sanitizes to `x`;
  - a fence inside a fenced text is not stable under a second pass.

  Idempotence is proved for outputs that neither open with a fence nor are
  wrapped in quotes.
- **The comment does not match the code.** The comment above the quote step
  (lib/nlToSql.ts:166) speaks of stripping backticks too, but the code strips
  only quotes, and so does the model.
- **The prompt and the template disagree on the prior period.** The system
  prompt describes the prior period as ending 30 days back, but the template
  ends it 31 days back. The model follows the template: the two periods are
  disjoint and together cover ages 0 to 60.

## Model

| member | source | states |
|---|---|---|
| Text.Trim | lib/nlToSql.ts:156 | the result has no whitespace (ECMAScript `trim` set) at either end |
| Text.TrimPads | lib/nlToSql.ts:156 | what trimming removes is whitespace padding around the result, at both ends |
| Text.TrimOfTrimmed | lib/nlToSql.ts:171 | a text without edge whitespace is its own trim, so the second trim only matters after quote stripping |
| Text.TrimIdempotent | lib/nlToSql.ts:180 | trimming twice is trimming once |
| Text.Lower | lib/nlToSql.ts:70 | lower-casing keeps the length and maps each character through the ASCII letter mapping |
| Text.LowerIdempotent | lib/nlToSql.ts:70 | lower-casing an already lower-cased question changes nothing |
| Text.Contains | lib/nlToSql.ts:76 | `includes` holds exactly when the pattern occurs at some index of the text |
| Text.CountIsMultiplicity | lib/nlToSql.ts:175 | `Count`, the backtick match count, equals the multiplicity of the character in the text |
| Text.CountAppend | lib/nlToSql.ts:175-177 | the count of a concatenation is the sum of the counts |
| Text.MissingChar | lib/nlToSql.ts:76-133 | a question lacking one character of a keyword does not contain the keyword |
| Sanitizer.WordRunEnd | lib/nlToSql.ts:161 | the `\w*` run after the fence is maximal: all word characters, followed by a non-word character or the end |
| Sanitizer.StripOpenFence | lib/nlToSql.ts:161 | exactly the fence, the maximal word run and at most one newline are cut from the front |
| Sanitizer.OpenFenceCut | lib/nlToSql.ts:161 | the opening cut is determined by where the word run stops |
| Sanitizer.FindCloseFence | lib/nlToSql.ts:163 | finds the leftmost index where an optional newline, the fence and trailing whitespace reach the end, or reports there is none |
| Sanitizer.StripCloseFence | lib/nlToSql.ts:163 | the text is cut at the leftmost closing-fence match and is unchanged when there is no match |
| Sanitizer.StripFence | lib/nlToSql.ts:159-164 | a text not opening with a fence is left alone |
| Sanitizer.StripFenceInfix | lib/nlToSql.ts:159-164 | fence stripping removes at least the opening fence and leaves a contiguous piece of its input |
| Sanitizer.StripQuotes | lib/nlToSql.ts:167-168 | exactly one outer pair of the same quote character is removed, and a text not wrapped that way is unchanged |
| Sanitizer.BalanceBackticks | lib/nlToSql.ts:175-177 | the result has an even backtick count; one backtick is appended exactly when the count was odd |
| Sanitizer.BalanceKeepsTrimmed | lib/nlToSql.ts:177-180 | appending the backtick keeps a trimmed text trimmed |
| Sanitizer.Stripped | lib/nlToSql.ts:156-171 | the text after fence and quote stripping has no edge whitespace |
| Sanitizer.Normalize | lib/nlToSql.ts:155-181 | the sanitized text never starts or ends with whitespace and has an even number of backticks |
| Sanitizer.NormalizeAppendsBacktickIffOdd | lib/nlToSql.ts:175-177 | exactly one backtick is appended, at the end, if and only if the stripped text had an odd count; otherwise nothing is appended |
| Sanitizer.NormalizePlainIsTrim | lib/nlToSql.ts:155-180 | nothing else changes: a text whose trim has no fence, no wrapping quotes and balanced backticks comes out as its trim |
| Sanitizer.NormalizeFixesPlain | lib/nlToSql.ts:155-180 | a trimmed, balanced text without fence or wrapping quotes is a fixed point |
| Sanitizer.NormalizeIdempotentOnPlain | lib/nlToSql.ts:155-181 | sanitizing twice equals sanitizing once for outputs that neither open with a fence nor are quote-wrapped |
| SanitizerExamples.FencedBlock | lib/nlToSql.ts:159-164 | a fenced block with any word tag around a query yields the query, for every query that is trimmed, has an even backtick count and is not wrapped in matching quotes (the later steps would change any other query) |
| SanitizerExamples.FencedBlockExample | lib/nlToSql.ts:159-164 | "```sql\nSELECT 1\n```" sanitizes to "SELECT 1" |
| SanitizerExamples.QuotedText | lib/nlToSql.ts:167-171 | one pair of matching quotes is removed from around any trimmed text with an even backtick count, which then comes out unchanged |
| SanitizerExamples.MixedQuotes | lib/nlToSql.ts:167-168 | a text opening with `"` and closing with `'` keeps both quotes, for any inner text with an even backtick count |
| SanitizerExamples.NestedQuotesExample | lib/nlToSql.ts:167-168 | `""x""` sanitizes to `"x"`: only one outer pair is removed |
| SanitizerExamples.NotIdempotentOnNestedQuotes | lib/nlToSql.ts:167-168 | doubled quotes around any trimmed text with an even backtick count lose one pair per pass, so a second pass changes the output |
| SanitizerExamples.InnerFenceFirstPass | lib/nlToSql.ts:159-177 | "```a```b```" sanitizes to "```b" plus one closing backtick |
| SanitizerExamples.InnerFenceSecondPass | lib/nlToSql.ts:159-177 | that output sanitizes further to two backticks |
| SanitizerExamples.NotIdempotentOnInnerFence | lib/nlToSql.ts:159-177 | the sanitizer is not idempotent on texts with an inner fence |
| Sql.DecimalText | lib/nlToSql.ts:87 | day counts print as non-empty digit strings without a leading zero |
| Sql.DecimalRoundTrip | lib/nlToSql.ts:87 | reading back a printed day count gives the number |
| Sql.DecimalInjective | lib/nlToSql.ts:87-97 | different day counts print differently |
| Sql.DaysBack | lib/nlToSql.ts:87 | the date expression is `CURRENT_DATE()` exactly for zero days back |
| Sql.Interval | lib/nlToSql.ts:87-97 | the day ages of a BETWEEN window are exactly the integers in its bounds, and there are as many as the bounds span |
| Sql.Days | lib/nlToSql.ts:87-97 | the set of day ages of a window holds exactly the ages the window's WHERE clause admits |
| Sql.PeriodsPartition | lib/nlToSql.ts:87-97 | the last and prior 30-day periods share no day, together cover ages 0 to 60, and hold 31 and 30 days |
| Sql.RoundOdd | lib/nlToSql.ts:101-104 | rounding is symmetric around zero: `ROUND(-x, d)` is `-ROUND(x, d)` |
| Sql.RoundHalfAway | lib/nlToSql.ts:101-104 | a value exactly halfway between two neighbours on the `d`-decimal grid rounds to the one farther from zero, for positive and negative values |
| Sql.RoundScaledClose | lib/nlToSql.ts:101-104 | a rounded value is within half a unit of the last kept digit of the exact value and lands on that digit grid |
| Sql.NullIfZeroNotZero | lib/nlToSql.ts:101-104 | `NULLIF(x, 0)` never evaluates to zero |
| Sql.NullSafe | lib/nlToSql.ts:101-104 | an expression whose every division has a `NULLIF(…, 0)` denominator never raises division by zero |
| Sql.GuardedRatio | lib/nlToSql.ts:101 | a guarded ratio is NULL exactly when an operand is NULL or the denominator is zero, and is the quotient otherwise |
| Sql.UnguardedRatioFails | lib/nlToSql.ts:101 | the same ratio without the guard fails on a zero denominator |
| Templates.Spaces | lib/nlToSql.ts:78-115 | the indentation of a template line is that many spaces |
| Templates.RenderBlock | lib/nlToSql.ts:78-115 | every template text starts with the line break after its opening backtick |
| Templates.PartsContainSegment | lib/nlToSql.ts:78-147 | a rendered line contains the text of each of its segments |
| Templates.LinesContainLine | lib/nlToSql.ts:78-147 | a rendered block contains the text of each of its lines |
| Templates.SegmentRendered | lib/nlToSql.ts:78-147 | whatever segment a template holds appears in its text |
| Templates.TwoPeriodWindows | lib/nlToSql.ts:87-97 | the comparison template filters by exactly the last and the prior 30-day windows |
| Templates.TwoPeriodMetrics | lib/nlToSql.ts:101-104 | the comparison template computes exactly CAC, CPC, CTR and CVR |
| Templates.SpendByPlatformHolds | lib/nlToSql.ts:121-130 | the platform report computes no ratio and filters by exactly the last 7 days |
| Templates.TopCampaignsHolds | lib/nlToSql.ts:135-147 | the campaign report computes exactly the summed CAC and filters by exactly the last 30 days |
| Templates.MetricsGuarded | lib/nlToSql.ts:101-138 | every ratio in every template divides by `NULLIF(denominator, 0)` |
| Templates.MetricsNeverFail | lib/nlToSql.ts:101-138 | no metric of any template can fail by division by zero, whatever the data |
| Templates.TemplatesNameTable | lib/nlToSql.ts:86-142 | each template reads from the table it is given |
| Templates.ReportOrdering | lib/nlToSql.ts:129-146 | both single-window reports order by `total_spend DESC`, and the campaign report keeps 5 rows |
| Templates.RatioText | lib/nlToSql.ts:101-102 | a guarded ratio prints as `ROUND(n / NULLIF(d, 0), 2)` |
| Templates.PercentText | lib/nlToSql.ts:103-104 | a guarded percentage prints as `ROUND(n / NULLIF(d, 0) * 100, 2)` |
| Templates.SumRatioText | lib/nlToSql.ts:138 | the campaign CAC prints as `ROUND(SUM(n) / NULLIF(SUM(d), 0), 2)` |
| Templates.DaysBackText | lib/nlToSql.ts:87 | a positive day count prints as `DATE_SUB(CURRENT_DATE(), INTERVAL n DAY)` |
| Templates.WindowTexts | lib/nlToSql.ts:87-143 | the four windows print as the WHERE conditions of the templates |
| Fallback.QualifiedTable | lib/nlToSql.ts:71 | the qualified table name is wrapped in one pair of backticks and adds two to the backtick count of its parts |
| Fallback.FirstMatchWins | lib/nlToSql.ts:76-152 | a table rule is chosen if and only if its guard holds and no earlier guard does |
| Fallback.FirstMatchPreview | lib/nlToSql.ts:150-152 | the default is chosen if and only if no guard holds |
| Fallback.GuardsMean | lib/nlToSql.ts:76-133 | each table entry's guard is the keyword test of the corresponding branch |
| Fallback.SelectRuleIsFirstMatch | lib/nlToSql.ts:76-152 | `SelectRule`, the nested branches, selects the same rule as the flat ordered rule table, for every question |
| Fallback.TwoPeriodIff | lib/nlToSql.ts:76-77 | the comparison report is chosen if and only if the question has "cac" or "compare" and both "last 30 days" and "prior 30 days" |
| Fallback.OnePeriodFallsThrough | lib/nlToSql.ts:76-77 | a comparison naming one period only is decided by the later rules as if the first did not exist |
| Fallback.SpendBeatsTopCampaigns | lib/nlToSql.ts:119-133 | spend by platform wins over top campaigns when both match |
| Fallback.TopCampaignsIff | lib/nlToSql.ts:133 | the campaign report is chosen if and only if "top" and "campaign" occur and no earlier rule applies |
| Fallback.PreviewIff | lib/nlToSql.ts:150-152 | the preview is chosen if and only if no rule's keywords match |
| Fallback.CaseInsensitive | lib/nlToSql.ts:70 | the fallback for a question equals the fallback for its lower-cased form |
| Fallback.Render | lib/nlToSql.ts:78-152 | every rule's query is non-empty, contains the table name, and starts with a line break exactly for the three report rules |
| Fallback.FallbackSql | lib/nlToSql.ts:69-153 | every fallback query is non-empty and contains the table name; it starts with a line break exactly when a report rule is selected |
| Fallback.TemplatesOpenWithNewline | lib/nlToSql.ts:78-135 | the report templates start with a line break, so they are not trimmed |
| Fallback.PreviewText | lib/nlToSql.ts:152 | the preview is `SELECT * FROM <table> LIMIT 100` |
| FallbackExamples.CompareExample | components/ExampleQueries.tsx:10 | the comparison example selects the two-period report |
| FallbackExamples.SpendExample | components/ExampleQueries.tsx:15 | the spend example selects the platform report |
| FallbackExamples.TopCampaignsExample | components/ExampleQueries.tsx:20 | the top-campaigns example selects the campaign report |
| FallbackExamples.PlatformExample | components/ExampleQueries.tsx:25 | the platform-performance example gets the preview |
| FallbackExamples.TrendExample | components/ExampleQueries.tsx:30 | the conversion-trend example gets the preview |
| FallbackExamples.EfficiencyExample | components/ExampleQueries.tsx:35 | the budget-efficiency example gets the preview |
| FallbackExamples.OnePeriodExample | lib/nlToSql.ts:76-77 | "Compare CAC for the last 30 days" passes the outer test, fails the inner one and gets the preview |
| FallbackExamples.HelloExample | lib/nlToSql.ts:150-152 | "hello" gets the preview |
| Translator.ConvertNlToSql | lib/nlToSql.ts:33-67 | an answer always comes out trimmed with balanced backticks |
| Translator.AnswerIsSanitized | lib/nlToSql.ts:60-61 | an answer yields its sanitized content, whatever the question or table, so the fallback is not consulted |
| Translator.FailureFallsBack | lib/nlToSql.ts:62-66 | a failure yields exactly the fallback query, which names the table |
| Translator.FallbackBypassesSanitizer | lib/nlToSql.ts:62-66 | when a report rule applies, the failure result is not trimmed, so it differs from every sanitized answer |
| Translator.PreviewIsSanitized | lib/nlToSql.ts:152 | the preview over a backtick-free qualified table would pass the sanitizer unchanged |
| Translator.FramedIsPlain | lib/nlToSql.ts:155-180 | a text from a capital letter to a digit, with balanced backticks, is a fixed point of the sanitizer |
| Translator.EmptyAnswer | lib/nlToSql.ts:60-61 | a blank answer yields the empty query |

## Left out

- The request to the model provider is left out: the fetch, its headers, the
  JSON body and the response parsing (lib/nlToSql.ts:36-59). The model takes
  its outcome as the `Upstream` parameter. A missing or malformed completion
  field throws in the source and is caught, which is the `Failure` case.
- `SYSTEM_PROMPT` (lib/nlToSql.ts:1-31) is constant text with no behaviour.
- Logging (`console.log`, `console.error`) has no effect on the result.
- Environment variables: the table name is a parameter. `Fallback.QualifiedTable`
  builds it from its three parts. The text `undefined`, which JavaScript
  prints for an unset variable, is not modelled.
- Text.Lower: lower-cases ASCII letters only, because Unicode case mapping
  (`toLowerCase`) is not modelled; the keywords are all ASCII.
- Sql.RoundScaledClose: the closeness of `ROUND` is stated for a general
  positive scale rather than for the power of ten, because real arithmetic
  with `10^d` is beyond what the solver handles here.
- Only the metric expressions and the date windows of the templates carry a
  semantics. The aggregation (`SUM`, `COUNT(DISTINCT …)`), `GROUP BY`,
  `UNION ALL` and the ordering are rendered as text and checked as text.
- The example questions of the interface are stated as concatenations of
  pieces that join to the exact question text. The literal question itself is
  not used in the lemmas, because the solver cannot take long literal texts
  apart.
- General idempotence of the sanitizer is false. The model proves
  counterexamples and the restricted form instead.
- The user interface, the API routes, the BigQuery and authentication
  wrappers, the number formatting and the scripts are outside the translation
  layer.
