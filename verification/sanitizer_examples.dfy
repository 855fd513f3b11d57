/** What `normalizeSqlOutput` does to the answers it was written for: a
    fenced block with a language tag, a quoted query, a mixed pair of quotes,
    and the two kinds of answer on which a second pass of the sanitizer changes
    its own output. */
module SanitizerExamples {
  import opened Text
  import opened Sanitizer

  /** The sanitizer as its stages, given the value of each stage. */
  lemma NormalizeVia(content: string, t0: string, t1: string, t2: string, t3: string)
    requires Trim(content) == t0 && StripFence(t0) == t1
    requires StripQuotes(t1) == t2 && Trim(t2) == t3
    ensures Count(t3, Backtick) % 2 == 0 ==> Normalize(content) == t3
    ensures Count(t3, Backtick) % 2 == 1 ==> Normalize(content) == t3 + [Backtick]
  {
    NormalizeAppendsBacktickIffOdd(content);
  }

  /** A trimmed answer whose fence step leaves a trimmed, unquoted text with
      balanced backticks comes out as that text. */
  lemma NormalizeFenceOnly(content: string, t: string)
    requires Trimmed(content) && StripFence(content) == t
    requires Trimmed(t) && !QuoteWrapped(t)
    ensures Count(t, Backtick) % 2 == 0 ==> Normalize(content) == t
    ensures Count(t, Backtick) % 2 == 1 ==> Normalize(content) == t + [Backtick]
  {
    TrimOfTrimmed(content);
    TrimOfTrimmed(t);
    NormalizeVia(content, content, t, t, t);
  }

  /** Word characters are not backticks. */
  lemma WordHasNoBacktick(w: string)
    requires AllWord(w)
    ensures Backtick !in w
  {
    assert forall i :: 0 <= i < |w| ==> w[i] != Backtick;
  }

  /** Where the pieces of a fenced block sit. */
  lemma FencedShape(tag: string, q: string)
    ensures var s := Fence + tag + "\n" + q + "\n" + Fence; var k := 3 + |tag|;
      |s| == k + |q| + 5 && s[..3] == Fence && s[3..k] == tag && s[k] == '\n'
      && s[k + 1..] == q + "\n" + Fence && s[0] == '`' && s[|s| - 1] == '`'
  {
  }

  /** A fenced block with a word tag, a newline, the query, a newline and the
      closing fence comes out as the query, provided the query is trimmed, has
      balanced backticks and is not itself wrapped in quotes. */
  lemma FencedBlock(tag: string, q: string)
    requires AllWord(tag)
    requires Trimmed(q) && Count(q, Backtick) % 2 == 0 && !QuoteWrapped(q)
    ensures Normalize(Fence + tag + "\n" + q + "\n" + Fence) == q
  {
    FencedFacts(tag, q);
    NormalizeFenceOnly(Fence + tag + "\n" + q + "\n" + Fence, q);
  }

  lemma FencedFacts(tag: string, q: string)
    requires AllWord(tag)
    ensures Trimmed(Fence + tag + "\n" + q + "\n" + Fence)
    ensures StripFence(Fence + tag + "\n" + q + "\n" + Fence) == q
  {
    FencedShape(tag, q);
    FencedStrip(tag, q);
  }

  /** The fence step on a fenced block leaves exactly the query, whatever
      the query holds. */
  lemma FencedStrip(tag: string, q: string)
    requires AllWord(tag)
    ensures StripFence(Fence + tag + "\n" + q + "\n" + Fence) == q
  {
    var s := Fence + tag + "\n" + q + "\n" + Fence;
    FencedShape(tag, q);
    OpenFenceCut(s, 3 + |tag|);
    FencedClose(q);
  }

  /** A text ending in a backtick has no whitespace-only suffix that reaches
      its last character. */
  lemma LastNotSpace(s: string, i: int)
    requires 0 <= i < |s| && s[|s| - 1] == Backtick
    ensures !AllSpace(s[i..])
  {
    assert s[i..][|s| - 1 - i] == s[|s| - 1];
  }

  /** The closing cut finds the newline before the closing fence: any match
      further left would need whitespace up to the end, and the text ends in
      a backtick. */
  lemma FencedClose(q: string)
    ensures StripCloseFence(q + "\n" + Fence) == q
  {
    var o := q + "\n" + Fence;
    assert CloseFenceAt(o, |q|) by { assert o[|q| + 1..|q| + 4] == Fence; }
    forall p | 0 <= p < |q| ensures !CloseFenceAt(o, p) {
      assert o[|o| - 1] == Backtick;
      LastNotSpace(o, p + 3);
      LastNotSpace(o, p + 4);
    }
    assert LeftmostCloseFence(o, |q|);
    assert o[..|q|] == q;
  }

  /** The usual fenced answer: the `sql` tag and both fence lines go. */
  lemma FencedBlockExample(s: string)
    requires s == "```sql\nSELECT 1\n```"
    ensures Normalize(s) == "SELECT 1"
  {
    assert s == Fence + "sql" + "\n" + "SELECT 1" + "\n" + Fence;
    SelectOnePlain("SELECT 1");
    FencedBlock("sql", "SELECT 1");
  }

  lemma SelectOnePlain(q: string)
    requires q == "SELECT 1"
    ensures Trimmed(q) && Count(q, Backtick) % 2 == 0 && !QuoteWrapped(q) && AllWord("sql")
  {
    assert Backtick !in q;
    CountAbsent(q, Backtick);
  }

  /** A query between two equal quote characters loses them and nothing else. */
  lemma QuotedText(c: char, w: string)
    requires IsQuote(c) && Trimmed(w) && Count(w, Backtick) % 2 == 0
    ensures Normalize([c] + w + [c]) == w
  {
    QuotedShape(c, w);
    NormalizeVia([c] + w + [c], [c] + w + [c], [c] + w + [c], w, w);
  }

  /** A text between two equal quote characters is trimmed, opens with no
      fence, and the quote step gives back its inside. */
  lemma QuotedShape(c: char, w: string)
    requires IsQuote(c) && Trimmed(w)
    ensures var s := [c] + w + [c];
      Trim(s) == s && StripFence(s) == s && StripQuotes(s) == w && Trim(w) == w
  {
    var s := [c] + w + [c];
    assert !(Fence <= s) by { assert s[0] != Fence[0]; }
    assert s[1..|s| - 1] == w;
    TrimOfTrimmed(s);
    TrimOfTrimmed(w);
  }

  /** A query between two different quote characters is left as it is. */
  lemma MixedQuotes(w: string)
    requires Count(w, Backtick) % 2 == 0
    ensures Normalize(['"'] + w + ['\'']) == ['"'] + w + ['\'']
  {
    MixedShape(w);
    NormalizeFixesPlain(['"'] + w + ['\'']);
  }

  /** Text between a double and a single quote is trimmed, unquoted, opens
      with no fence and has the backticks of its inside. */
  lemma MixedShape(w: string)
    requires Count(w, Backtick) % 2 == 0
    ensures var s := ['"'] + w + ['\''];
      Trimmed(s) && !QuoteWrapped(s) && !(Fence <= s) && Count(s, Backtick) % 2 == 0
  {
    var s := ['"'] + w + ['\''];
    assert !(Fence <= s) by { assert s[0] != Fence[0]; }
    FramedCount('"', w, '\'');
  }

  /** Two characters other than a backtick around `w` add no backtick. */
  lemma FramedCount(c: char, w: string, d: char)
    requires c != Backtick && d != Backtick
    ensures Count([c] + w + [d], Backtick) == Count(w, Backtick)
  {
    CountAppend([c] + w, [d], Backtick);
    CountAppend([c], w, Backtick);
  }

  /** Only the outer pair of doubled quotes is removed. */
  lemma NestedQuotesExample(s: string)
    requires s == "\"\"x\"\""
    ensures Normalize(s) == "\"x\""
  {
    var inner := "\"x\"";
    assert s == ['"'] + inner + ['"'];
    NestedQuotesText(inner);
  }

  lemma NestedQuotesText(inner: string)
    requires inner == "\"x\""
    ensures Normalize(['"'] + inner + ['"']) == inner
  {
    assert Trimmed(inner) && Backtick !in inner;
    CountAbsent(inner, Backtick);
    QuotedText('"', inner);
  }

  /** Counterexample to idempotence: doubled quotes lose one pair per pass. */
  lemma NotIdempotentOnNestedQuotes(w: string)
    requires Trimmed(w) && Count(w, Backtick) % 2 == 0
    ensures var once := Normalize(['"', '"'] + w + ['"', '"']);
      once == ['"'] + w + ['"'] && Normalize(once) == w && Normalize(once) != once
  {
    QuotedInner(w);
    QuotedText('"', ['"'] + w + ['"']);
    QuotedText('"', w);
  }

  /** A quoted text is trimmed, has the backticks of its inside, and
      doubling the quotes is quoting twice. */
  lemma QuotedInner(w: string)
    ensures var inner := ['"'] + w + ['"'];
      Trimmed(inner) && Count(inner, Backtick) == Count(w, Backtick) && |inner| != |w|
      && ['"'] + inner + ['"'] == ['"', '"'] + w + ['"', '"']
  {
    FramedCount('"', w, '"');
  }

  /** Where the pieces of an answer with an inner fence sit. */
  lemma InnerFenceShape(a: string, b: string)
    ensures var s := Fence + a + Fence + b + Fence; var k := 3 + |a|;
      |s| == k + |b| + 6 && s[..3] == Fence && s[3..k] == a && s[k] == '`'
      && s[k..] == Fence + b + Fence && s[0] == '`' && s[|s| - 1] == '`'
  {
  }

  lemma InnerFenceTrimmed(a: string, b: string)
    ensures Trimmed(Fence + a + Fence + b + Fence)
  {
    InnerFenceShape(a, b);
  }

  /** The closing cut takes only the last fence when a word run precedes it. */
  lemma InnerFenceClose(b: string)
    requires AllWord(b) && |b| > 0
    ensures StripCloseFence(Fence + b + Fence) == Fence + b
  {
    var o := Fence + b + Fence;
    var e := 3 + |b|;
    assert CloseFenceAt(o, e) by { assert o[e..e + 3] == Fence; }
    assert o[3] == b[0];
    forall p | 0 <= p < e ensures !CloseFenceAt(o, p) {
      assert p >= 3 ==> o[p] == b[p - 3];
      assert o[p..p + 3][0] == o[p];
      if 0 < p < 3 { assert o[p..p + 3][3 - p] == o[3]; }
      if p == 0 { assert o[3..][0] == o[3]; }
    }
    assert LeftmostCloseFence(o, e);
    assert o[..e] == Fence + b;
  }

  lemma InnerFenceStrip(a: string, b: string)
    requires AllWord(a) && AllWord(b) && |b| > 0
    ensures StripFence(Fence + a + Fence + b + Fence) == Fence + b
  {
    InnerFenceShape(a, b);
    OpenFenceCut(Fence + a + Fence + b + Fence, 3 + |a|);
    InnerFenceClose(b);
  }

  /** The text left after the first pass is trimmed, unquoted and has three
      backticks. */
  lemma InnerFenceRest(b: string)
    requires AllWord(b) && |b| > 0
    ensures Trimmed(Fence + b) && !QuoteWrapped(Fence + b)
    ensures Count(Fence + b, Backtick) == 3 && Count(Fence + b, Backtick) % 2 == 1
  {
    assert (Fence + b)[0] == '`' && (Fence + b)[|Fence + b| - 1] == b[|b| - 1];
    WordHasNoBacktick(b);
    CountAbsent(b, Backtick);
    FenceCount();
    CountAppend(Fence, b, Backtick);
  }

  lemma FenceCount()
    ensures Count(Fence, Backtick) == 3
  {
    assert Fence == [Backtick] + [Backtick] + [Backtick];
  }

  /** First pass over answers shaped like "```a```b```": the opening fence
      and tag go, the closing fence goes, and the inner fence is left with an
      odd number of backticks, so one is appended. */
  lemma InnerFenceFirstPass(a: string, b: string)
    requires AllWord(a) && AllWord(b) && |b| > 0
    ensures Normalize(Fence + a + Fence + b + Fence) == Fence + b + [Backtick]
  {
    InnerFenceFacts(a, b);
    NormalizeFenceOdd(Fence + a + Fence + b + Fence, Fence + b);
  }

  lemma InnerFenceFacts(a: string, b: string)
    requires AllWord(a) && AllWord(b) && |b| > 0
    ensures Trimmed(Fence + a + Fence + b + Fence)
    ensures StripFence(Fence + a + Fence + b + Fence) == Fence + b
    ensures Trimmed(Fence + b) && !QuoteWrapped(Fence + b) && Count(Fence + b, Backtick) % 2 == 1
  {
    InnerFenceTrimmed(a, b);
    InnerFenceStrip(a, b);
    InnerFenceRest(b);
  }

  /** A trimmed answer whose fence step leaves a trimmed, unquoted text with
      an odd number of backticks comes out as that text and one more. */
  lemma NormalizeFenceOdd(content: string, t: string)
    requires Trimmed(content) && StripFence(content) == t
    requires Trimmed(t) && !QuoteWrapped(t) && Count(t, Backtick) % 2 == 1
    ensures Normalize(content) == t + [Backtick]
  {
    NormalizeFenceOnly(content, t);
  }

  lemma SecondPassShape(b: string)
    ensures var s := Fence + b + [Backtick]; var k := 3 + |b|;
      |s| == k + 1 && s[..3] == Fence && s[3..k] == b && s[k] == '`'
      && s[k..] == [Backtick] && s[0] == '`' && s[|s| - 1] == '`'
  {
  }

  lemma SecondPassStrip(b: string)
    requires AllWord(b)
    ensures StripFence(Fence + b + [Backtick]) == [Backtick]
  {
    SecondPassShape(b);
    OpenFenceCut(Fence + b + [Backtick], 3 + |b|);
    assert forall p :: !CloseFenceAt([Backtick], p);
  }

  /** Second pass: the inner fence now opens the text and is cut, leaving one
      backtick, which is balanced by another. */
  lemma InnerFenceSecondPass(b: string)
    requires AllWord(b)
    ensures Normalize(Fence + b + [Backtick]) == [Backtick, Backtick]
  {
    SecondPassTrimmed(b);
    SecondPassStrip(b);
    LoneBacktick();
    NormalizeFenceOnly(Fence + b + [Backtick], [Backtick]);
  }

  lemma SecondPassTrimmed(b: string)
    ensures Trimmed(Fence + b + [Backtick])
  {
    SecondPassShape(b);
  }

  /** A lone backtick is trimmed, unquoted and odd. */
  lemma LoneBacktick()
    ensures Trimmed([Backtick]) && !QuoteWrapped([Backtick]) && Count([Backtick], Backtick) == 1
    ensures [Backtick] + [Backtick] == [Backtick, Backtick]
  {
    assert Count([Backtick], Backtick) == 1;
  }

  /** Counterexample to idempotence: a fence inside the answer survives the
      first pass and is cut by the second. */
  lemma NotIdempotentOnInnerFence(a: string, b: string)
    requires AllWord(a) && AllWord(b) && |b| > 0
    ensures var once := Normalize(Fence + a + Fence + b + Fence);
      Normalize(once) == [Backtick, Backtick] && Normalize(once) != once
  {
    InnerFenceFirstPass(a, b);
    InnerFenceSecondPass(b);
    assert |Fence + b + [Backtick]| > 2;
  }
}
