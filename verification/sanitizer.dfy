/** `normalizeSqlOutput`: the clean-up applied to the language model's raw
    answer before it is used as a query. The two regular expressions of the
    source are written out as explicit prefix and suffix cuts. */
module Sanitizer {
  import opened Text

  const Fence := "```"
  const Backtick := '`'

  datatype Option<T> = None | Some(value: T)

  /** End of the run of word characters that starts at `from`. */
  function WordRunEnd(s: string, from: nat): (k: nat)
    requires from <= |s|
    ensures from <= k <= |s|
    ensures AllWord(s[from..k])
    ensures k < |s| ==> !IsWordChar(s[k])
    decreases |s| - from
  {
    if from < |s| && IsWordChar(s[from]) then
      var k := WordRunEnd(s, from + 1);
      assert s[from..k] == [s[from]] + s[from + 1..k];
      k
    else
      from
  }

  /** `r` is `s` with the match of `^```\w*\n?` deleted, where the word run
      after the fence ends at `k`: the fence, every word character up to
      `k`, and one newline if the run is followed by one. */
  predicate OpenFenceRemoved(s: string, k: int, r: string) {
    Fence <= s && 3 <= k <= |s| && AllWord(s[3..k]) && (k < |s| ==> !IsWordChar(s[k]))
    && r == (if k < |s| && s[k] == '\n' then s[k + 1..] else s[k..])
  }

  /** The word run is determined by where it stops. */
  lemma WordRunEndIs(s: string, from: nat, k: nat)
    requires from <= k <= |s|
    requires AllWord(s[from..k]) && (k < |s| ==> !IsWordChar(s[k]))
    ensures WordRunEnd(s, from) == k
  {
  }

  /** `replace(/^```\w*\n?/, '')`. */
  function StripOpenFence(s: string): (r: string)
    ensures Fence <= s ==> exists k :: OpenFenceRemoved(s, k, r)
    ensures !(Fence <= s) ==> r == s
  {
    if Fence <= s then
      var k := WordRunEnd(s, 3);
      var r := if k < |s| && s[k] == '\n' then s[k + 1..] else s[k..];
      assert OpenFenceRemoved(s, k, r);
      r
    else
      s
  }

  /** The opening cut of a fenced text whose tag is the word run `s[3..k]`. */
  lemma OpenFenceCut(s: string, k: nat)
    requires Fence <= s && 3 <= k <= |s|
    requires AllWord(s[3..k]) && (k < |s| ==> !IsWordChar(s[k]))
    ensures StripOpenFence(s) == (if k < |s| && s[k] == '\n' then s[k + 1..] else s[k..])
  {
    WordRunEndIs(s, 3, k);
  }

  /** The pattern `\n?```\s*$` matches `s` at index `p`: an optional newline,
      the fence, and nothing but whitespace up to the end. */
  predicate CloseFenceAt(s: string, p: int) {
    0 <= p <= |s|
    && ((p + 4 <= |s| && s[p] == '\n' && s[p + 1..p + 4] == Fence && AllSpace(s[p + 4..]))
        || (p + 3 <= |s| && s[p..p + 3] == Fence && AllSpace(s[p + 3..])))
  }

  /** `p` is the leftmost index at which `\n?```\s*$` matches. */
  predicate LeftmostCloseFence(s: string, p: int) {
    CloseFenceAt(s, p) && forall q :: 0 <= q < p ==> !CloseFenceAt(s, q)
  }

  /** Leftmost match of `\n?```\s*$` at or after `from`, if any. */
  function FindCloseFence(s: string, from: nat): (p: Option<nat>)
    requires from <= |s|
    ensures p.Some? ==> from <= p.value && CloseFenceAt(s, p.value)
    ensures p.Some? ==> forall q :: from <= q < p.value ==> !CloseFenceAt(s, q)
    ensures p.None? ==> forall q :: from <= q ==> !CloseFenceAt(s, q)
    decreases |s| - from
  {
    if CloseFenceAt(s, from) then Some(from)
    else if from == |s| then None
    else FindCloseFence(s, from + 1)
  }

  /** `replace(/\n?```\s*$/, '')`: everything from the leftmost match on is
      cut; with no match the text is unchanged. */
  function StripCloseFence(s: string): (r: string)
    ensures forall p :: LeftmostCloseFence(s, p) ==> r == s[..p]
    ensures (forall p :: !CloseFenceAt(s, p)) ==> r == s
    ensures |r| <= |s| && r == s[..|r|]
  {
    match FindCloseFence(s, 0)
    case Some(p) => s[..p]
    case None => s
  }

  /** The fence step: both cuts, and only for a text that opens with a fence. */
  function StripFence(s: string): (r: string)
    ensures !(Fence <= s) ==> r == s
  {
    if Fence <= s then StripCloseFence(StripOpenFence(s)) else s
  }

  /** The fence step removes at least the opening fence and leaves a
      contiguous piece of its input. */
  lemma StripFenceInfix(s: string)
    ensures Fence <= s ==> |StripFence(s)| <= |s| - |Fence|
    ensures Contains(s, StripFence(s))
  {
    if Fence <= s {
      var o := StripOpenFence(s);
      var r := StripCloseFence(o);
      var k :| OpenFenceRemoved(s, k, o);
      assert o == s[|s| - |o|..];
      assert s[|s| - |o|..|s| - |o| + |r|] == r;
      assert OccursAt(s, r, |s| - |o|);
    } else {
      ContainsSelf(s);
    }
  }

  predicate IsQuote(c: char) {
    c == '"' || c == '\''
  }

  /** Starts and ends with the same quote character; a lone quote character
      does both. */
  predicate QuoteWrapped(s: string) {
    |s| >= 1 && IsQuote(s[0]) && s[|s| - 1] == s[0]
  }

  /** `slice(1, -1)` under the wrapping test: one outer pair of matching
      quotes is removed, and nothing else. */
  function StripQuotes(s: string): (r: string)
    ensures QuoteWrapped(s) && |s| >= 2 ==> s == [s[0]] + r + [s[0]]
    ensures QuoteWrapped(s) && |s| == 1 ==> r == ""
    ensures !QuoteWrapped(s) ==> r == s
  {
    if QuoteWrapped(s) then
      if |s| >= 2 then s[1..|s| - 1] else ""
    else
      s
  }

  /** Closes an unterminated backtick by appending one. */
  function BalanceBackticks(s: string): (r: string)
    ensures Count(r, Backtick) % 2 == 0
    ensures Count(s, Backtick) % 2 == 0 ==> r == s
    ensures Count(s, Backtick) % 2 == 1 ==> r == s + [Backtick]
  {
    if Count(s, Backtick) % 2 == 1 then
      CountAppend(s, [Backtick], Backtick);
      s + [Backtick]
    else
      s
  }

  /** Appending a backtick to a trimmed text leaves it trimmed. */
  lemma BalanceKeepsTrimmed(s: string)
    requires Trimmed(s)
    ensures Trimmed(BalanceBackticks(s))
  {
  }

  /** The text after fence and quote stripping, before the backtick repair. */
  function Stripped(content: string): (t: string)
    ensures Trimmed(t)
  {
    Trim(StripQuotes(StripFence(Trim(content))))
  }

  /** `normalizeSqlOutput`. */
  function Normalize(content: string): (r: string)
    ensures Trimmed(r)
    ensures Count(r, Backtick) % 2 == 0
  {
    var t := Stripped(content);
    BalanceKeepsTrimmed(t);
    TrimOfTrimmed(BalanceBackticks(t));
    Trim(BalanceBackticks(t))
  }

  /** Exactly one backtick is appended, at the end, when the stripped text has
      an odd number of them; otherwise nothing is appended. */
  lemma NormalizeAppendsBacktickIffOdd(content: string)
    ensures var t := Stripped(content);
      Count(t, Backtick) % 2 == 1 <==> Normalize(content) == t + [Backtick]
    ensures var t := Stripped(content);
      Count(t, Backtick) % 2 == 0 <==> Normalize(content) == t
  {
    var t := Stripped(content);
    BalanceKeepsTrimmed(t);
    TrimOfTrimmed(BalanceBackticks(t));
    assert t + [Backtick] != t by {
      assert |t + [Backtick]| != |t|;
    }
  }

  /** Nothing else changes: a text that, once trimmed, opens with no fence,
      is not wrapped in quotes and has balanced backticks comes out as its
      trim. */
  lemma NormalizePlainIsTrim(content: string)
    requires !(Fence <= Trim(content))
    requires !QuoteWrapped(Trim(content))
    requires Count(Trim(content), Backtick) % 2 == 0
    ensures Normalize(content) == Trim(content)
  {
    TrimIdempotent(content);
    NormalizeAppendsBacktickIffOdd(content);
  }

  /** A trimmed text with balanced backticks that opens with no fence and is
      not wrapped in quotes is left as it is. */
  lemma NormalizeFixesPlain(r: string)
    requires Trimmed(r) && Count(r, Backtick) % 2 == 0
    requires !(Fence <= r) && !QuoteWrapped(r)
    ensures Normalize(r) == r
  {
    TrimOfTrimmed(r);
    NormalizePlainIsTrim(r);
  }

  /** The sanitizer is idempotent on the outputs that neither open with a
      fence nor are wrapped in quotes (it is not idempotent in general). */
  lemma NormalizeIdempotentOnPlain(content: string)
    requires !(Fence <= Normalize(content))
    requires !QuoteWrapped(Normalize(content))
    ensures Normalize(Normalize(content)) == Normalize(content)
  {
    NormalizeFixesPlain(Normalize(content));
  }
}
