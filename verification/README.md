# Text-to-SQL: safety checks, schema text and orchestration

A Dafny model of the core of a small Text-to-SQL system. A question is turned into a prompt
that carries a textual description of the database schema. The model's answer is taken as a
SQL statement and may be executed. The model covers three pieces of logic.

- **The static checks of `SQLValidator`** (src/sql_validator.py):
  - the ten injection patterns, each hand-coded as a case-blind matcher over ASCII text;
  - the dangerous-keyword gate, which lets any text whose stripped, upper-cased form starts
    with `SELECT` through;
  - the read-only classifier;
  - `sanitize_query`;
  - how `validate_query` collects its reasons into `(is_valid, errors)`.

  The `EXPLAIN` syntax check is a parameter `syntaxOk`.
- **The schema renderers**. Each one turns an introspected snapshot into prompt text:
  - the plain renderer of src/text_to_sql.py, which demo_meaningless_names.py repeats
    character for character;
  - the constraint-list renderer `format_schema_for_llm` of src/database_utils.py, with
    `get_table_info` and the sample-data gate;
  - the metadata-annotated and basic renderers of demo_meaningless_names_enhanced.py, which
    skip the `column_metadata` table;
  - the grouping of metadata rows done by `get_column_metadata`.

  Python's `repr` of strings, lists and rows is modelled, together with `str` and truthiness.
- **The orchestration**:
  - the prompt template and its `format`;
  - the `generate_sql` error convention;
  - `query`'s result record, as written: it never calls the validator;
  - the error row of `execute_query`;
  - the execute gate of `show_comparison`.

  The language model, the database and the sample query are function parameters (oracles).

Module layout:

| module | file | covers |
|---|---|---|
| `Options` | options.dfy | the `Option` type |
| `Text` | text.dfy | ASCII `isspace`, `upper`, `strip`, `split()`, `split("\n")`, `join` |
| `PyRepr` | pyrepr.dfy | SQL values, `str`, truthiness, `repr` |
| `Injection` | injection.dfy | `_is_potential_injection` |
| `Validator` | validator.dfy | `_contains_dangerous_operations`, `is_read_only_query`, `validate_query` |
| `Sanitize` | sanitize.dfy | `sanitize_query` |
| `Schema` | schema.dfy | the snapshot and `get_table_info` |
| `Render` | render.dfy | the plain renderer, the line view of schema text, a column-line reader |
| `Enhanced` | enhanced.dfy | metadata grouping, the annotated and basic renderers |
| `Database` | database.dfy | result rows and the error row |
| `LlmFormat` | llmformat.dfy | `format_schema_for_llm` |
| `Prompt` | prompt.dfy | the prompt template |
| `Pipeline` | pipeline.dfy | `generate_sql`, `query`, `show_comparison`'s gate |

Rendered text is related back to its input in two ways:
- **Line view.** Split on `"\n"`, the text gives back the table names, in order, from the
  `Table: ` lines.
- **Column-line reader.** `Render.ReadColumn` reads a column line with `split()`. It takes
  the first word as the name and the markers off the end: `PRIMARY KEY`, then `NOT NULL`, or a
  bare `NULL` where the renderer writes one. The words in between, joined by single spaces,
  are the type, so multi-word types such as `NUMERIC(10, 2)` read back too.

Both renderers' column lines are read by the same reader. It is told whether the renderer
writes `NULL` for a nullable column.

`SQLValidator` ships next to `TextToSQL` as part of the package (`__init__.py:9-13`), but
`query` never calls it. The model follows the code as written:
- `query` does not validate the generated statement.
- An execution failure shows up as an `{"error": ...}` row inside `results`, while the
  `error` field stays empty.

`Pipeline.GuardedRespond` is this model's own gated variant, set next to the code as
written. It validates the statement before it runs it, and it reports every failure in
`error`: a rejection, with its reasons, and an execution failure. `Pipeline.GuardedQuery`
runs it with `validate_query` as the validator.

## Model

| member | source | states |
|---|---|---|
| `Validator.ValidateQuery` | src/sql_validator.py:9-25 | valid exactly when no reason is given; each reason appears exactly when its check fails, at most three, in check order |
| `Validator.Reasons` | src/sql_validator.py:11-23 | the reason list holds each reason iff its check failed, is empty iff all passed, and keeps the fixed order injection, dangerous, syntax |
| `Validator.LeadingKeyword` | src/sql_validator.py:54-57 | `upper().strip().startswith(kw)` holds iff the raw text, after its leading whitespace, spells `kw` in any case |
| `Validator.ReadOnlyByLeadingKeyword` | src/sql_validator.py:87-90 | read-only iff the first non-blank characters spell `SELECT` or `WITH`, in any case |
| `Validator.SelectPrefixNeverDangerous` | src/sql_validator.py:56-58 | any text made of whitespace, a case-blind `SELECT`, then anything, is never dangerous, whatever keywords follow |
| `Validator.KeywordIgnoresCase` | src/sql_validator.py:54-62 | a keyword occurs in the upper-cased text iff it occurs in the raw text ignoring case |
| `Validator.LeadingKeywordRejected` | src/sql_validator.py:47-64 | a text that starts with any listed keyword is not read-only, is dangerous, and is rejected with the dangerous-operations reason |
| `Validator.PlainSelectAccepted` | test_text_to_sql.py:42-46 | `SELECT * FROM employees` is read-only and valid exactly when the syntax check passes |
| `Validator.WithQueryGated` | src/sql_validator.py:56-62 | a `WITH` query is read-only but still goes through the keyword search |
| `Validator.ChainedDropRejected` | src/sql_validator.py:14-19 | `SELECT...; DROP ...` passes the keyword gate yet is rejected as an injection |
| `Validator.InjectionOnlyReason` | src/sql_validator.py:14-19 | a flagged text that passes the keyword gate is rejected with the injection reason and without the dangerous one |
| `Injection.SearchPattern` | src/sql_validator.py:43 | the left-to-right search finds a match iff the pattern matches at some position |
| `Injection.ScanForInjection` | src/sql_validator.py:42-45 | the early-returning loop over the patterns answers iff some listed pattern is found |
| `Injection.UpperSameMatches` | src/sql_validator.py:29-40 | every pattern matches the upper-cased text at exactly the positions where it matches the text |
| `Injection.ScanIgnoresCase` | src/sql_validator.py:43 | the scan gives the same answer on the text and on its upper-cased form |
| `Injection.MatchStart` | src/sql_validator.py:29-40 | every match begins at `;`, `-`, `/`, or a word-initial `o`/`w` in either case |
| `Injection.CleanTextNotFlagged` | src/sql_validator.py:42-45 | a text with no possible match start is not flagged |
| `Injection.OrTautologyFlagged` | src/sql_validator.py:38 | a word-bounded `or 1=1` in any case is flagged wherever it occurs |
| `Injection.DropChainFlagged` | src/sql_validator.py:30 | `;`, optional whitespace, a case-blind `drop` and whitespace are flagged wherever they occur |
| `Sanitize.StripLineComments` | src/sql_validator.py:79 | the result is no longer than the input, unchanged iff the same length, and holds no `--` |
| `Sanitize.LineCommentToEndOfLine` | src/sql_validator.py:79 | a `--` comment is removed up to, not including, the next line break |
| `Sanitize.BlockCommentToFirstClose` | src/sql_validator.py:80 | a `/*` comment is removed up to the first `*/` after it |
| `Sanitize.BlockCommentsKept` | src/sql_validator.py:80 | text without a closed block comment passes unchanged |
| `Sanitize.BlockCommentShrinks` | src/sql_validator.py:80 | text with a closed block comment gets strictly shorter |
| `Sanitize.Collapse` | src/sql_validator.py:83 | the output has no whitespace at its ends, only single spaces between non-blanks, and the same words as the input |
| `Sanitize.Sanitize` | src/sql_validator.py:76-85 | the output is collapsed and has the words of the comment-stripped input |
| `Sanitize.SanitizeWithoutComments` | src/sql_validator.py:76-85 | on text with neither `--` nor `/*` sanitising is plain whitespace collapsing |
| `Sanitize.CollapseIdentity` | src/sql_validator.py:83 | collapsed text is its own collapse: `split` and `' '.join` are inverse on it |
| `Sanitize.CollapseIdempotent` | src/sql_validator.py:83 | collapsing twice is collapsing once |
| `Sanitize.SanitizeStable` | src/sql_validator.py:76-85 | sanitising again changes nothing when the first pass left no comment opener |
| `Sanitize.CommentPassesFixed` | src/sql_validator.py:79-80 | the two comment passes keep the length iff the text has no `--` and no closed block comment |
| `Sanitize.SanitizeLeavesLineComment` | src/sql_validator.py:79-80 | `-/**/-` sanitises to `--`: a line comment survives |
| `Sanitize.SanitizeLeavesBlockComment` | src/sql_validator.py:80 | `//**/**/` sanitises to `/**/`: a closed block comment survives |
| `Sanitize.StripCommentsFully` | src/sql_validator.py:78-80 | repeating the passes to a fixed point leaves no `--` and no closed block comment, and changes comment-free text not at all |
| `Sanitize.SanitizeFixed` | src/sql_validator.py:76-85 | the corrected sanitiser's output is collapsed, holds no `--` and no closed block comment, and has the words of the fully stripped text |
| `Sanitize.CollapseKeepsNoBlockComment` | src/sql_validator.py:83 | collapsing whitespace never assembles a `/* ... */` comment that was not already there |
| `Sanitize.CollapseComments` | src/sql_validator.py:83 | every `/*`, `*/` and closed comment of the collapsed text is found in the text itself |
| `Text.JoinWords` | src/sql_validator.py:83 | `split()` after `' '.join` gives back words without whitespace |
| `Text.SplitUnlines` | src/text_to_sql.py:96-112 | splitting text built line by line gives the lines back, plus the empty piece after the last break |
| `Text.StripShape` | src/text_to_sql.py:123 | the text is its leading whitespace, then the stripped text, then only whitespace; the stripped text begins and ends with non-whitespace |
| `Text.StripUnique` | src/text_to_sql.py:123 | any split into whitespace, a text with non-whitespace ends, and whitespace has the stripped text as its middle |
| `Schema.GetTableInfo` | src/database_utils.py:10-46 | one record per table in order, with name, columns (name, type, nullable, key flag, default), foreign-key column lists and primary keys copied |
| `Schema.TableInfoKernel` | src/database_utils.py:20-42 | two tables get the same record iff they differ only in what is not copied |
| `PyRepr.ReprRoundTrip` | src/text_to_sql.py:108 | reading the `repr` of a string back gives the string |
| `PyRepr.UnescapeEscape` | src/text_to_sql.py:108 | the escaped body of a `repr` reads back as the original text |
| `Render.Section` | src/text_to_sql.py:105-108 | a titled section is empty iff it has no entries, and otherwise is the title followed by one item line per entry |
| `Render.ColumnTextReadable` | src/text_to_sql.py:99-103 | a column line with a one-word name reads back as its column's name, its type (multi-word types included, single-spaced), its nullability and its key flag |
| `Render.ForeignKeyHeader` | src/text_to_sql.py:105-108 | a block has a `Foreign Keys:` line iff its table has a foreign key |
| `Render.DocumentNames` | src/text_to_sql.py:110-112 | blocks joined with `"\n"` split back into their lines, and give back the block names in order |
| `Render.PlainLinesSingle` | src/text_to_sql.py:96-108 | every line of a table block is free of line breaks when its names are |
| `Render.PlainNamesRecoverable` | demo_meaningless_names.py:70-95 | the rendered schema names every table, in inspector order, none skipped |
| `Enhanced.GroupMetadata` | demo_meaningless_names_enhanced.py:115-141 | a table has an entry iff some row names it, and each (table, column) holds the record of its last row |
| `Enhanced.Visible` | demo_meaningless_names_enhanced.py:149-151 | the shown tables are exactly the snapshot's tables other than `column_metadata`, and there are no more of them than in the snapshot |
| `Enhanced.VisibleFilters` | demo_meaningless_names_enhanced.py:149-151 | skipping `column_metadata` is an order-keeping filter: one table is kept or dropped on its name alone, and the filter of a concatenation is the concatenation of the filters |
| `Enhanced.ShownIsVisible` | demo_meaningless_names_enhanced.py:149-151 | the loop with `continue` renders the same blocks as rendering the filtered snapshot |
| `Enhanced.BasicIsPlainOfVisible` | demo_meaningless_names_enhanced.py:189-218 | the basic schema is the plain schema of the snapshot without `column_metadata` |
| `Enhanced.AnnotatedIffDescribed` | demo_meaningless_names_enhanced.py:166-178 | an enhanced column line extends the plain one, and equals it iff the (table, column) pair has no record |
| `Enhanced.AnnotationIsPartList` | demo_meaningless_names_enhanced.py:169-176 | the annotation is the comma-separated list of its parts in parentheses: business name, description, then each optional field only when truthy |
| `Enhanced.EnhancedLinesUnannotated` | demo_meaningless_names_enhanced.py:159-183 | a table with no recorded column renders exactly as in the basic schema |
| `Enhanced.EnhancedWithoutMetadata` | demo_meaningless_names_enhanced.py:143-218 | with no record for any shown column the enhanced schema is the basic schema |
| `Enhanced.EnhancedNamesRecoverable` | demo_meaningless_names_enhanced.py:143-187 | the enhanced schema names the non-metadata tables in order, and never `column_metadata` |
| `LlmFormat.ConstraintWords` | src/database_utils.py:77-82 | the constraint text holds `NOT NULL` iff not nullable and `PRIMARY KEY` iff a key, in that order, and nothing for a nullable column |
| `LlmFormat.LlmColumnReadable` | src/database_utils.py:76-84 | a constraint-list column line with a one-word name reads back, with the plain renderer's reader, as the record's name, its type (multi-word types included, single-spaced), its nullability and its key flag |
| `LlmFormat.SampleHeaderIffShown` | src/database_utils.py:91-96 | the sample section appears iff there are sample rows and none has an `error` key |
| `LlmFormat.FailedSamplesHidden` | src/database_utils.py:55-56 | a failed sample query never shows a sample section |
| `LlmFormat.LlmNamesRecoverable` | src/database_utils.py:67-100 | the rendered schema names every table in order |
| `LlmFormat.ErrorColumnHidesSamples` | src/database_utils.py:93 | successful sample rows whose first row has an `error` column are hidden as if the query had failed |
| `LlmFormat.SampleSectionFixed` | src/database_utils.py:91-96 | the corrected gate shows the section iff the sample query succeeded with at least one row |
| `LlmFormat.FixedGateAgrees` | src/database_utils.py:91-96 | the corrected gate agrees with the written one whenever no successful row has an `error` column |
| `LlmFormat.FixedShowsErrorColumn` | src/database_utils.py:91-96 | the corrected renderer shows the samples of a table with an `error` column |
| `Database.FailureReadsBack` | src/text_to_sql.py:127-136 | a failure reads back from the rows as its message |
| `Database.FailureIndistinguishable` | src/text_to_sql.py:133-136 | a failure and a successful one-row `error` result give the same rows |
| `Prompt.Fill` | demo_meaningless_names.py:102-105 | `format` fails iff some slot has no value |
| `Prompt.Compose` | demo_meaningless_names_enhanced.py:228-231 | the template always formats, as both slots get values |
| `Prompt.ComposeLayout` | src/text_to_sql.py:71-79 | the prompt is the template text with schema and question copied in verbatim at their slots |
| `Prompt.ComposeRecoverable` | demo_meaningless_names.py:60-68 | either argument is recovered from the prompt once the other is known |
| `Prompt.ComposeAmbiguous` | demo_meaningless_names_enhanced.py:105-113 | without escaping, two different argument pairs can give the same prompt |
| `Pipeline.GenerateSql` | src/text_to_sql.py:114-125 | a raised completion gives `Error generating SQL: ` followed by the message; a returned one gives the answer with exactly its leading and trailing whitespace removed |
| `Pipeline.AnswerTrimmed` | src/text_to_sql.py:118-123 | an answer made of whitespace, a statement and whitespace is returned as exactly that statement |
| `Pipeline.MetadataSwitchIdle` | demo_meaningless_names_enhanced.py:220-236 | when no shown column has a record, both `use_metadata` settings send the same prompt, and so, for a model that answers a prompt one way, get the same answer |
| `Pipeline.Respond` | src/text_to_sql.py:142-157 | the result is an error exactly when the statement starts with `Error`, and then it has no rows and no statement; any other statement is kept as `sql_query`, and its execution outcome, error row included, is the results |
| `Pipeline.Query` | src/text_to_sql.py:138-157 | the question is kept; exactly one of `sql_query` and `error` is set; an error has no rows and starts with `Error` |
| `Pipeline.ErrorPrefixStarts` | src/text_to_sql.py:125 | the generation error text starts with `Error` |
| `Pipeline.GenerationFailureReported` | src/text_to_sql.py:142-148 | every failed completion ends in the error branch, carrying the message, with no rows |
| `Pipeline.ErrorLikeAnswerNotExecuted` | src/text_to_sql.py:140-148 | an answer starting with `Error` is reported as an error and not executed |
| `Pipeline.AnswerExecutedUnvalidated` | src/text_to_sql.py:150-157 | any other answer is executed as generated, and a failed execution leaves `error` empty |
| `Pipeline.Compare` | demo_meaningless_names_enhanced.py:269-282 | the enhanced answer is executed iff it is non-empty and does not start with `Error` |
| `Pipeline.ComparisonSkipsFailure` | demo_meaningless_names_enhanced.py:276-281 | a failed enhanced generation is never executed |
| `Pipeline.GuardedRespond` | src/text_to_sql.py:142-157 | with a validator in front, a result without an error carries the very statement, which the validator accepted and which ran, and its rows |
| `Pipeline.GuardedQuery` | src/text_to_sql.py:138-157 | gated by the validator, a result without an error always carries a statement the validator accepts |
| `Pipeline.RejectedNeverExecuted` | src/text_to_sql.py:150 | a rejected statement never reaches the executor, has no rows, and its error lists the reasons |
| `Pipeline.QueryRunsRejected` | src/text_to_sql.py:150-157 | the written `query` executes a statement the gated one rejects |
| `Pipeline.DropTableExecuted` | src/text_to_sql.py:150-157 | `DROP TABLE employees` is rejected by the validator, and the written `query` executes it |
| `Pipeline.AcceptedExecutedAlike` | src/text_to_sql.py:150-157 | on an accepted statement that runs, the gated and the written `query` agree |

## Left out

- Language-model calls (`LLMChain`, `generate_content`) are a parameter `llm` that either
  returns text or raises with a message. The prompt is built as the code builds it, and what
  the model answers is not modelled.
- Pipeline.MetadataSwitchIdle: its answer equality treats the language model as a fixed
  function of its prompt. `show_comparison` makes two separate `generate_sql` calls to a
  model built with no generation config, which samples, so two calls with the same prompt
  may answer differently. What the code itself guarantees is the equal prompts, and the
  lemma states that too.
- Database access is not modelled. This covers connections, `inspect(engine)`,
  `execute_query`'s SQL, `get_sample_data`'s `SELECT`, and the `EXPLAIN` checks
  `_validate_syntax` and `validate_sql`. They are parameters instead: a snapshot, `exec`,
  `samples` and `syntaxOk`. Nothing is assumed about them.
- Printing in `show_comparison` and `show_schema_impact`, the database bootstrap and
  seeding code, example_usage.py and `__init__.py` are left out. They are console output and
  fixtures.
- Case mapping and whitespace are ASCII only. Python's `upper()` and `split()` also act on
  non-ASCII characters.
- Injection.ScanForInjection: the regex classes `\w` and `\b` are ASCII only. Python 3
  matches them on Unicode word characters, so the answers differ on non-ASCII letters next
  to a pattern. `éor 1=1` is flagged by the model but not by Python. `; delete from tablé
  where 1=1` is flagged by Python but not by the model.
- Floats are carried as the text Python's `repr` gives them. `BLOB` values are not modelled.
- `repr` escapes control characters below 0x20, `\x7f`, the backslash and the quote. Every
  other character is kept as is. Python also escapes non-printable non-ASCII characters.
- src/text_to_sql.py declares only `schema` among the LangChain template's input variables.
  The model fills both slots, as `str.format` would. LangChain's own variable checking is not
  modelled.
- SQLAlchemy reports a column's `primary_key` flag as an integer on SQLite. The renderers
  only test it for truth, so it is a `bool`.
- Column types are the text `str(column['type'])` gives. Metadata rows are keyed by their
  table and column name strings.
- Table names are recovered from schema text only when names, column types, sample values
  and, for the enhanced renderer, the printed metadata fields (business name, description,
  example value, business rules) hold no line break. `Render.PlainWellFormed`,
  `LlmFormat.RowsWellFormed` and `Enhanced.MetadataWellFormed` state this. With a line break
  inside a name, the source's own text is ambiguous too.
- Enhanced.EnhancedNamesRecoverable: holds only for metadata whose printed fields have no
  line break (`Enhanced.MetadataWellFormed`). A line break there starts a new line that may
  read as a `Table: ` line.
- Render.ColumnTextReadable: the column name must be one word, since `split()` cannot tell
  where a name with a space in it ends. The type comes back with single spaces between its
  words. That is the type itself when it is single-spaced, as `str()` prints SQLAlchemy
  types, for example `NUMERIC(10, 2)`. A nullable column's type may not end with the word
  `NOT`, because `NOT NULL` would then read as the marker.
- LlmFormat.LlmColumnReadable: the same one-word name, and a type that comes back
  single-spaced. The type may not end with `NOT NULL` or `PRIMARY KEY`, because the
  renderer writes nothing for a nullable column, so those words would read as markers.
- The gated orchestration `Pipeline.GuardedRespond` joins its reasons with `"; "`. The
  separator is this model's choice: `validate_query` returns the reasons as a list, and
  `query` never joins them.
- Schema.GetTableInfo: the foreign key's `name` is copied too. The contract lists the
  fields the renderer reads. `Schema.TableInfoKernel` states the full set of what is kept.

## Findings

| source | as written | input that shows it | evidently intended | confidence | as-written member | corrected member |
|---|---|---|---|---|---|---|
| src/sql_validator.py:79-80 | each comment pass runs once, line comments first | `-/**/-` sanitises to `--` | no comment marker survives sanitising | medium, not executed | `Sanitize.SanitizeLeavesLineComment` | `Sanitize.SanitizeFixed` |
| src/sql_validator.py:80 | the block-comment pass runs once | `//**/**/` sanitises to `/**/` | no closed block comment survives sanitising | medium, not executed | `Sanitize.SanitizeLeavesBlockComment` | `Sanitize.StripCommentsFully` |
| src/text_to_sql.py:150 | `query` executes the generated text without calling the validator | any generated statement the validator rejects, for example `DROP TABLE employees` | a rejected statement is never executed | high, not executed | `Pipeline.DropTableExecuted` | `Pipeline.RejectedNeverExecuted` |
| src/database_utils.py:93 | samples are hidden when any row has an `error` key | a table with a column named `error` and at least one row | samples are hidden only when the sample query failed | low, not executed | `LlmFormat.ErrorColumnHidesSamples` | `LlmFormat.FixedShowsErrorColumn` |
