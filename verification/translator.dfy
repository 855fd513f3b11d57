/** `convertNLToSQL`: ask the language model, sanitize its answer; on any
    failure, fall back to the keyword rules. The network call is replaced by
    its outcome, given as a parameter. */
module Translator {
  import opened Text
  import opened Sanitizer
  import opened Fallback

  /** What the chat-completion request produced: the message content of the
      first choice, or a failure of any kind (a non-success status, a
      transport error, a reply without the expected shape). */
  datatype Upstream = Answer(content: string) | Failure

  /** `convertNLToSQL` for the question `q`, the upstream outcome `up` and
      the table name the fallback would use. */
  function ConvertNlToSql(q: string, up: Upstream, table: string): (r: string)
    ensures up.Answer? ==> Trimmed(r) && Count(r, Backtick) % 2 == 0
  {
    match up
    case Answer(c) => Normalize(Trim(c))
    case Failure => FallbackSql(q, table)
  }

  /** An answer goes through the sanitizer alone: the trim before it changes
      nothing, and neither the question nor the table name matters. */
  lemma AnswerIsSanitized(q: string, c: string, table: string, q': string, table': string)
    ensures ConvertNlToSql(q, Answer(c), table) == Normalize(c)
    ensures ConvertNlToSql(q, Answer(c), table) == ConvertNlToSql(q', Answer(c), table')
  {
    TrimIdempotent(c);
  }

  /** A failure yields exactly the fallback query for the question. */
  lemma FailureFallsBack(q: string, table: string)
    ensures ConvertNlToSql(q, Failure, table) == FallbackSql(q, table)
    ensures Contains(ConvertNlToSql(q, Failure, table), table)
  {
  }

  /** The fallback is not sanitized: when a report rule applies, its text
      keeps the leading line break of the template, so no answer of the model
      could have produced it. */
  lemma FallbackBypassesSanitizer(q: string, table: string)
    requires SelectRule(q) != Preview
    ensures var r := ConvertNlToSql(q, Failure, table);
      !Trimmed(r) && forall c :: r != ConvertNlToSql(q, Answer(c), table)
  {
    FailureFallsBack(q, table);
    TemplatesOpenWithNewline(q, table);
    UntrimmedIsNoAnswer(q, FallbackSql(q, table), table);
  }

  /** Every answer comes out trimmed, so an untrimmed text is none of them. */
  lemma UntrimmedIsNoAnswer(q: string, r: string, table: string)
    requires !Trimmed(r)
    ensures forall c :: r != ConvertNlToSql(q, Answer(c), table)
  {
    forall c ensures r != ConvertNlToSql(q, Answer(c), table) {
      assert Trimmed(ConvertNlToSql(q, Answer(c), table));
    }
  }

  /** The preview over a qualified table is already in sanitized form: the
      sanitizer would leave it unchanged. */
  lemma PreviewIsSanitized(q: string, project: string, dataset: string, tableId: string)
    requires Backtick !in project && Backtick !in dataset && Backtick !in tableId
    requires SelectRule(q) == Preview
    ensures var r := ConvertNlToSql(q, Failure, QualifiedTable(project, dataset, tableId));
      Normalize(r) == r
  {
    var table := QualifiedTable(project, dataset, tableId);
    PreviewText(q, table);
    PreviewSanitized(table, project, dataset, tableId);
  }

  lemma PreviewSanitized(table: string, project: string, dataset: string, tableId: string)
    requires Backtick !in project && Backtick !in dataset && Backtick !in tableId
    requires table == QualifiedTable(project, dataset, tableId)
    ensures Normalize("SELECT * FROM " + table + " LIMIT 100") == "SELECT * FROM " + table + " LIMIT 100"
  {
    CountAbsent(project, Backtick);
    CountAbsent(dataset, Backtick);
    CountAbsent(tableId, Backtick);
    FramedIsPlain("SELECT * FROM ", table, " LIMIT 100");
  }

  /** A text framed by a head that starts with a letter and a tail that ends
      with a digit, neither with a backtick, around a middle with an even
      number of backticks is left as it is by the sanitizer. */
  lemma FramedIsPlain(head: string, mid: string, tail: string)
    requires |head| > 0 && 'A' <= head[0] <= 'Z'
    requires |tail| > 0 && '0' <= tail[|tail| - 1] <= '9'
    requires Backtick !in head && Backtick !in tail && Count(mid, Backtick) % 2 == 0
    ensures Normalize(head + mid + tail) == head + mid + tail
  {
    FramedIsPlainText(head, mid, tail);
    NormalizeFixesPlain(head + mid + tail);
  }

  lemma FramedIsPlainText(head: string, mid: string, tail: string)
    requires |head| > 0 && 'A' <= head[0] <= 'Z'
    requires |tail| > 0 && '0' <= tail[|tail| - 1] <= '9'
    requires Backtick !in head && Backtick !in tail && Count(mid, Backtick) % 2 == 0
    ensures var r := head + mid + tail;
      Trimmed(r) && Count(r, Backtick) % 2 == 0 && !(Fence <= r) && !QuoteWrapped(r)
  {
    var r := head + mid + tail;
    CountAbsent(head, Backtick);
    CountAbsent(tail, Backtick);
    CountAppend(head + mid, tail, Backtick);
    CountAppend(head, mid, Backtick);
    assert r[0] == head[0] && r[|r| - 1] == tail[|tail| - 1];
    assert !(Fence <= r) by {
      assert r[0] != Fence[0];
    }
  }

  /** An empty answer, or one of whitespace only, becomes an empty query:
      only the fallback path is sure to produce text. */
  lemma EmptyAnswer(q: string, c: string, table: string)
    requires AllSpace(c)
    ensures ConvertNlToSql(q, Answer(c), table) == ""
  {
    TrimPads(c);
    NormalizeFixesPlain("");
  }
}
