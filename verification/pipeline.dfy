/** The orchestration around the model: `generate_sql` and `query` in
    src/text_to_sql.py, and `generate_sql` and the execute gate of
    `show_comparison` in demo_meaningless_names_enhanced.py. The language
    model and the database are oracles: `llm` maps a prompt to what the
    completion call did, `exec` maps a statement to what SQLite did. */
module Pipeline {
  import opened Options
  import opened Text
  import opened PyRepr
  import opened Schema
  import opened Validator
  import opened Render
  import opened Enhanced
  import opened Prompt
  import opened Database

  /** What the completion call did: returned text, or raised. */
  datatype Completion = Completed(text: string) | Raised(message: string)

  const GenerationErrorPrefix := "Error" + " generating SQL: "

  /** The `try`/`except` of `generate_sql`: the stripped answer, or the
      exception turned into text. */
  function GenerateSql(schema: string, question: string, llm: string -> Completion): (r: string)
    ensures llm(PromptText(schema, question)).Raised? ==>
      StartsWith(r, GenerationErrorPrefix) &&
      r[|GenerationErrorPrefix|..] == llm(PromptText(schema, question)).message
    ensures llm(PromptText(schema, question)).Completed? ==>
      var text := llm(PromptText(schema, question)).text;
      (r == [] || (!IsSpace(r[0]) && !IsSpace(r[|r| - 1]))) &&
      OccursAt(text, r, SkipSpaces(text, 0)) && AllSpace(text[SkipSpaces(text, 0) + |r|..])
  {
    match llm(PromptText(schema, question))
    case Completed(text) => StripShape(text); Strip(text)
    case Raised(message) =>
      var r := GenerationErrorPrefix + message;
      assert r[..|GenerationErrorPrefix|] == GenerationErrorPrefix;
      assert r[|GenerationErrorPrefix|..] == message;
      r
  }

  /** An answer made of whitespace, a statement with non-whitespace ends, and
      whitespace is returned as exactly that statement. */
  lemma {:induction false} AnswerTrimmed(schema: string, question: string, llm: string -> Completion,
                                         lead: string, sql: string, trail: string)
    requires llm(PromptText(schema, question)) == Completed(lead + sql + trail)
    requires AllSpace(lead) && AllSpace(trail)
    requires sql == [] || (!IsSpace(sql[0]) && !IsSpace(sql[|sql| - 1]))
    ensures GenerateSql(schema, question, llm) == sql
  {
    StripUnique(lead + sql + trail, lead, sql, trail);
  }

  /** `TextToSQL.generate_sql`: the prompt carries the plain schema. */
  function GenerateSqlPlain(ts: Snapshot, question: string, llm: string -> Completion): string {
    GenerateSql(PlainSchema(ts), question, llm)
  }

  /** `TextToSQLEnhanced.generate_sql`: the enhanced schema, or the basic one
      when `use_metadata` is off. */
  function GenerateSqlEnhanced(md: Metadata, ts: Snapshot, question: string, useMetadata: bool,
                               llm: string -> Completion): string {
    var schema := if useMetadata then EnhancedSchema(md, ts) else BasicSchema(ts);
    GenerateSql(schema, question, llm)
  }

  /** When no column of the snapshot has a metadata record, the
      `use_metadata` switch makes no difference to what is sent: both
      settings build the same prompt. The answers agree too only because
      `llm` stands for one fixed answer per prompt; a sampling model may
      answer two calls with the same prompt differently. */
  lemma {:induction false} MetadataSwitchIdle(md: Metadata, ts: Snapshot, question: string,
                                              llm: string -> Completion)
    requires forall t, c | t in ts && c in t.columns :: MetaLookup(md, t.name, c.name).None?
    ensures PromptText(EnhancedSchema(md, ts), question) == PromptText(BasicSchema(ts), question)
    ensures GenerateSqlEnhanced(md, ts, question, true, llm) ==
            GenerateSqlEnhanced(md, ts, question, false, llm)
  {
    EnhancedWithoutMetadata(md, ts);
  }

  /** The dictionary `query` returns. */
  datatype QueryResult = QueryResult(
    question: string,
    sqlQuery: Option<string>,
    results: seq<Row>,
    error: Option<string>)

  /** What `TextToSQL.query` does once the statement is generated: a text
      that starts with `Error` is reported as the error; any other text is
      executed as it is, without validation. */
  function Respond(question: string, sql: string, exec: string -> ExecOutcome): (r: QueryResult)
    ensures r.question == question
    ensures r.sqlQuery.None? <==> r.error.Some?
    ensures r.error.Some? <==> StartsWith(sql, "Error")
    ensures r.error.Some? ==> r.results == [] && r.error.value == sql
    ensures r.sqlQuery.Some? ==> r.sqlQuery.value == sql && r.results == ResultRows(exec(sql))
  {
    if StartsWith(sql, "Error") then QueryResult(question, None, [], Some(sql))
    else QueryResult(question, Some(sql), ResultRows(exec(sql)), None)
  }

  /** `TextToSQL.query` as written. */
  function Query(ts: Snapshot, question: string, llm: string -> Completion,
                 exec: string -> ExecOutcome): (r: QueryResult)
    ensures r.question == question
    ensures r.sqlQuery.None? <==> r.error.Some?
    ensures r.error.Some? ==> r.results == [] && StartsWith(r.error.value, "Error")
  {
    Respond(question, GenerateSqlPlain(ts, question, llm), exec)
  }

  // ---------------------------------------------------------------------
  // Properties of the written orchestration

  lemma {:induction false} ErrorPrefixStarts()
    ensures StartsWith(GenerationErrorPrefix, "Error")
  {
    var e := "Error";
    assert GenerationErrorPrefix[..|e|] == e;
  }

  /** Every failed completion ends in the error branch, carrying the
      exception text, and nothing is executed. */
  lemma {:induction false} GenerationFailureReported(ts: Snapshot, question: string, llm: string -> Completion,
                                  exec: string -> ExecOutcome)
    requires llm(PromptText(PlainSchema(ts), question)).Raised?
    ensures Query(ts, question, llm, exec).error ==
      Some(GenerationErrorPrefix + llm(PromptText(PlainSchema(ts), question)).message)
    ensures Query(ts, question, llm, exec).results == []
  {
    var m := llm(PromptText(PlainSchema(ts), question)).message;
    ErrorPrefixStarts();
    assert (GenerationErrorPrefix + m)[..5] == GenerationErrorPrefix[..5];
  }

  /** A successful answer whose stripped text starts with `Error` is
      indistinguishable from a failure: it is reported as the error and not
      executed. */
  lemma {:induction false} ErrorLikeAnswerNotExecuted(ts: Snapshot, question: string, text: string,
                                                      llm: string -> Completion, exec: string -> ExecOutcome)
    requires llm(PromptText(PlainSchema(ts), question)) == Completed(text)
    requires StartsWith(Strip(text), "Error")
    ensures Query(ts, question, llm, exec) == QueryResult(question, None, [], Some(Strip(text)))
  {
  }

  /** Any other answer is executed exactly as generated, whatever the
      validator would say of it; a failing execution shows up as the error
      row inside `results`, with `error` left empty. */
  lemma {:induction false} AnswerExecutedUnvalidated(ts: Snapshot, question: string, text: string,
                                                     llm: string -> Completion, exec: string -> ExecOutcome)
    requires llm(PromptText(PlainSchema(ts), question)) == Completed(text)
    requires !StartsWith(Strip(text), "Error")
    ensures Query(ts, question, llm, exec) ==
      QueryResult(question, Some(Strip(text)), ResultRows(exec(Strip(text))), None)
  {
  }

  /** The gate of `show_comparison`: the enhanced answer is executed only
      when it is non-empty and does not start with `Error`. */
  function ShouldExecute(sql: string): bool {
    |sql| > 0 && !StartsWith(sql, "Error")
  }

  /** One question of `show_comparison`: both generated statements, and the
      rows of the enhanced one when the gate lets it through. */
  datatype Comparison = Comparison(without: string, with: string, results: Option<seq<Row>>)

  function Compare(md: Metadata, ts: Snapshot, question: string, llm: string -> Completion,
                   exec: string -> ExecOutcome): (c: Comparison)
    ensures c.results.Some? <==> ShouldExecute(c.with)
    ensures c.results.Some? ==> c.results.value == ResultRows(exec(c.with))
  {
    var without := GenerateSqlEnhanced(md, ts, question, false, llm);
    var with := GenerateSqlEnhanced(md, ts, question, true, llm);
    if ShouldExecute(with) then Comparison(without, with, Some(ResultRows(exec(with))))
    else Comparison(without, with, None)
  }

  /** A failed enhanced generation is never executed. */
  lemma {:induction false} ComparisonSkipsFailure(md: Metadata, ts: Snapshot, question: string, llm: string -> Completion,
                               exec: string -> ExecOutcome)
    requires llm(PromptText(EnhancedSchema(md, ts), question)).Raised?
    ensures Compare(md, ts, question, llm, exec).results.None?
  {
    var m := llm(PromptText(EnhancedSchema(md, ts), question)).message;
    ErrorPrefixStarts();
    assert (GenerationErrorPrefix + m)[..5] == GenerationErrorPrefix[..5];
  }

  // ---------------------------------------------------------------------
  // The gated orchestration

  /** `query` after generation with a validator in front of the executor:
      a rejected statement is reported with its reasons and never run; an
      execution failure is reported in `error`. */
  function GuardedRespond(question: string, sql: string, exec: string -> ExecOutcome,
                          validate: string -> Verdict): (r: QueryResult)
    ensures r.question == question
    ensures r.error.None? ==> r.sqlQuery == Some(sql) && validate(sql).isValid
    ensures r.error.None? ==> exec(sql).Rows? && r.results == exec(sql).rows
  {
    if StartsWith(sql, "Error") then QueryResult(question, None, [], Some(sql))
    else
      var verdict := validate(sql);
      if !verdict.isValid then QueryResult(question, Some(sql), [], Some(Join("; ", verdict.errors)))
      else match exec(sql)
        case Rows(rows) => QueryResult(question, Some(sql), rows, None)
        case Failed(message) => QueryResult(question, Some(sql), [], Some(message))
  }

  /** `query` gated by `SQLValidator.validate_query`. */
  function GuardedQuery(ts: Snapshot, question: string, llm: string -> Completion,
                        exec: string -> ExecOutcome, syntaxOk: string -> bool): (r: QueryResult)
    ensures r.question == question
    ensures r.error.None? ==> r.sqlQuery.Some? && ValidateQuery(r.sqlQuery.value, syntaxOk).isValid
  {
    GuardedRespond(question, GenerateSqlPlain(ts, question, llm), exec, s => ValidateQuery(s, syntaxOk))
  }

  /** A statement the validator rejects never reaches the executor: the
      result is the same whatever the executor would have done, has no
      rows, and names the reasons. */
  lemma {:induction false} RejectedNeverExecuted(question: string, sql: string,
                              exec1: string -> ExecOutcome, exec2: string -> ExecOutcome,
                              validate: string -> Verdict)
    requires !StartsWith(sql, "Error") && !validate(sql).isValid
    ensures GuardedRespond(question, sql, exec1, validate) == GuardedRespond(question, sql, exec2, validate)
    ensures GuardedRespond(question, sql, exec1, validate).results == []
    ensures GuardedRespond(question, sql, exec1, validate).error == Some(Join("; ", validate(sql).errors))
  {
  }

  /** The written `query` runs what the gated one refuses. */
  lemma {:induction false} QueryRunsRejected(question: string, sql: string, exec: string -> ExecOutcome,
                                             validate: string -> Verdict)
    requires !StartsWith(sql, "Error") && !validate(sql).isValid
    ensures Respond(question, sql, exec).error.None?
    ensures Respond(question, sql, exec).results == ResultRows(exec(sql))
    ensures GuardedRespond(question, sql, exec, validate).error.Some?
  {
  }

  /** A concrete case: `DROP TABLE employees` is rejected by the validator,
      and the written `query` executes it all the same. */
  lemma {:induction false} DropTableExecuted(question: string, sql: string, exec: string -> ExecOutcome,
                                             syntaxOk: string -> bool)
    requires sql == "DROP TABLE employees"
    ensures !ValidateQuery(sql, syntaxOk).isValid
    ensures Respond(question, sql, exec).results == ResultRows(exec(sql))
    ensures GuardedRespond(question, sql, exec, s => ValidateQuery(s, syntaxOk)).error.Some?
  {
    var rest := " TABLE employees";
    assert sql == DangerousKeywords[0] + rest;
    LeadingKeywordRejected(0, rest, syntaxOk);
    assert !StartsWith(sql, "Error") by { assert sql[0] != 'E'; }
    QueryRunsRejected(question, sql, exec, s => ValidateQuery(s, syntaxOk));
  }

  /** On a statement the validator accepts and that runs, the gated query
      gives what the written one gives. */
  lemma {:induction false} AcceptedExecutedAlike(question: string, sql: string, rows: seq<Row>,
                                                 exec: string -> ExecOutcome, validate: string -> Verdict)
    requires !StartsWith(sql, "Error") && validate(sql).isValid && exec(sql) == Rows(rows)
    ensures GuardedRespond(question, sql, exec, validate) == Respond(question, sql, exec)
  {
  }
}
