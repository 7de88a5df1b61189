# altai-bi-sql — a verified model of the query pipeline

altai-bi-sql is a natural-language BI assistant. A user registers a database
workspace. The back end reads the database's tables, columns and foreign keys
and stores a snapshot of them. An LLM gives each table and column a business
name. A prompt then becomes a SQL query:

- the LLM writes the query;
- the SQL guard accepts or rejects it and forces a row limit;
- the query runs against the customer's database;
- the rows are cut to size, personal data is masked, and columns are renamed
  to their business names;
- the result goes back as a column-oriented table with a summary text and a
  chart configuration.

The front end keeps a mock sign-in store and polls a request until it is no
longer PENDING.

This project models that core in Dafny. There is one module per source file:

| module | source file |
|---|---|
| `SqlGuard` | `backend/src/modules/sql-guard/sql-guard.service.ts` |
| `ResultProcessing` | `backend/src/modules/data-requests/utils/result-processing.util.ts` |
| `DataRequests` | `backend/src/modules/data-requests/services/data-requests.service.ts` |
| `RateLimit` | `backend/src/modules/data-requests/interceptors/workspace-rate-limit.interceptor.ts` |
| `WorkspacesUtil` | `backend/src/modules/workspaces/utils/workspaces.util.ts` |
| `WorkspaceIngest`, `Workspaces` | `backend/src/modules/workspaces/services/workspaces.service.ts` |
| `LlmClient` | `backend/src/common/llm/llm.client.ts` |
| `Auth` | `frontend/src/modules/auth/services/auth.service.ts` |
| `Polling` | `frontend/src/modules/home/composables/data-requests.composable.ts` |
| `PromptsModels` | `frontend/src/modules/home/models/prompts.models.ts` |
| `DataRequestsModels` | `frontend/src/modules/home/models/data-requests.models.ts` |

Shared modules:

- `Wrappers`: `Option` and `Result`.
- `Seqs`: prefix and concatenation lemmas the loops share.
- `Text`: ASCII text helpers, including the JavaScript `\s` class, trimming
  and number formatting.
- `Js`: JSON-like values, and object rows as ordered key/value lists.
- `Status`: the request status.

Everything the code gets from outside is a parameter, and the functions
receive it explicitly:

- JSON parse and stringify, `Number()`, byte lengths, the clock and uuid
  values;
- the database, the LLM and `fetch`.

The form follows the source:

- Code that changes state in place is a `class`: the rate limiter, the
  workspace store, the request store, the auth store and the poller.
- Most loops in the source are `for` or `while` loops with invariants, each
  proved equal to a specification function. Three kinds are not:
  - the keyword loops at `sql-guard.service.ts:76-80` and `:86-90` stop at the
    first keyword found. They are the recursive function
    `SqlGuard.FirstKeywordIn`, over the keyword list.
  - the `for (const e of eqs)` push at `sql-guard.service.ts:114-116` only
    appends. It becomes one concatenation of `SqlGuard.Equalities` inside the
    `while` loop of `SqlGuard.CollectComparisons`.
  - the loops inside the recursive `toJsonValue`
    (`result-processing.util.ts:106-119`) are recursion over the items and
    members in `ResultProcessing.ToJsonValue`.
- Pure helpers are functions with lemmas about them.

Where the code and its design notes disagree, the model follows the code:

- A failed pipeline step does not mark the request FAILED. Creation aborts
  and the record stays PENDING (`DataRequests.RequestStore.CreateAndExecute`).
- Unqualified tables get no default schema.
- Aliases are not resolved. `o.id` counts as a reference to a schema `o`
  (`SqlGuard.QualifiedNameIsSchemaReference`).
- The join check keys pairs on an empty schema slot. When any allowed schema
  is named, every qualified join comparison is rejected
  (`SqlGuard.JoinsRejectedWhenSchemasNamed`).
- `isTerminalStatus` in `prompts.models.ts` counts PENDING as terminal
  (`PromptsModels.TerminalIffPresent`).

## Model

| member | source | states |
|---|---|---|
| SqlGuard.ValidateAndRewrite | backend/src/modules/sql-guard/sql-guard.service.ts:22-45 | the method's result is exactly `Guard`: the first failing check in source order (select only, CTE/DDL/DML, dangerous keywords, schema allowlist, foreign-key joins), or the comment-stripped query with the row limit enforced |
| SqlGuard.GuardIff | backend/src/modules/sql-guard/sql-guard.service.ts:22-45 | `Guard`, the whole of `validateAndRewrite`: a query is accepted exactly when its comment-stripped text passes every check (`Accepts`); an accepted query always contains a whole-word LIMIT; one that already had LIMIT comes back as the stripped text |
| SqlGuard.GuardOutput | backend/src/modules/sql-guard/sql-guard.service.ts:41-44 | an accepted query is the stripped text passed through `enforceLimit` with `forceLimit ?? 101` |
| SqlGuard.GuardSchemaError | backend/src/modules/sql-guard/sql-guard.service.ts:29-38 | when the schema check rejects, the message lists exactly the referenced schemas that are not allowed, at least one, each once, in the order of their first reference (`Array.from(new Set(violations))`) |
| SqlGuard.FirstViolationNone | backend/src/modules/sql-guard/sql-guard.service.ts:22-40 | `FirstViolation` finds no broken rule exactly when the text meets `Accepts`, the reference definition of the five checks |
| SqlGuard.FirstViolationSteps | backend/src/modules/sql-guard/sql-guard.service.ts:22-42 | no rule is broken exactly when the text is SELECT-only, both keyword checks and the schema rule pass, and, when free joins are forbidden, the join rule passes |
| SqlGuard.CloseIndex | backend/src/modules/sql-guard/sql-guard.service.ts:49 | the lazy `/*...*/` match ends at the first `*/` after the opener |
| SqlGuard.LineStripLeavesNoTerminatedComment | backend/src/modules/sql-guard/sql-guard.service.ts:49 | after stripping, no `--` is followed later by a newline |
| SqlGuard.LineStripWithoutNewline | backend/src/modules/sql-guard/sql-guard.service.ts:49 | text without a newline is left unchanged by line-comment stripping, because the pattern needs the newline |
| SqlGuard.BlockStripWithoutSlash | backend/src/modules/sql-guard/sql-guard.service.ts:49 | text without `/` is left unchanged by block-comment stripping |
| SqlGuard.StripCommentsPlain | backend/src/modules/sql-guard/sql-guard.service.ts:47-50 | `stripComments` leaves text with no newline and no `/` unchanged, since neither pattern can match in it |
| SqlGuard.LineStripHead | backend/src/modules/sql-guard/sql-guard.service.ts:49 | after the line-comment pass the text starts with a newline when it began with a `--` comment that a newline ends, and with its old first character otherwise |
| SqlGuard.LimitAppendedInsideTrailingComment | backend/src/modules/sql-guard/sql-guard.service.ts:47-50 | a final `--` comment without a newline survives stripping, and the appended LIMIT lands inside it |
| SqlGuard.LimitAfterOpenComment | backend/src/modules/sql-guard/sql-guard.service.ts:93-97 | for text on one line that holds `--` and no LIMIT, the result ends in ` LIMIT n`, and the part before it still holds the `--` with no newline, so the limit is commented out |
| SqlGuard.TrimKeepsDashes | backend/src/modules/sql-guard/sql-guard.service.ts:96 | trimming never removes a `--` from the text |
| SqlGuard.LeadingToken | backend/src/modules/sql-guard/sql-guard.service.ts:53 | the first token is a prefix of the trimmed text, holds no whitespace and ends at whitespace or the end |
| SqlGuard.OnlySelectIff | backend/src/modules/sql-guard/sql-guard.service.ts:52-57 | `ensureOnlySelect` passes exactly when the trimmed, upper-cased text begins with SELECT followed by whitespace or the end, or begins with WITH |
| SqlGuard.SelectToken | backend/src/modules/sql-guard/sql-guard.service.ts:53-54 | the first token of `split(/\s+/)` is SELECT exactly when the text begins with SELECT followed by whitespace or the end |
| SqlGuard.WithToken | backend/src/modules/sql-guard/sql-guard.service.ts:53-54 | the first token begins with WITH exactly when the text does |
| SqlGuard.LeadingTokenCovers | backend/src/modules/sql-guard/sql-guard.service.ts:53 | the first token covers every upper-case word the text begins with |
| SqlGuard.FirstKeywordIn | backend/src/modules/sql-guard/sql-guard.service.ts:76-80 | the `for (const kw of …)` loop, written as recursion over the list: a reported keyword is in the list, occurs as a whole word, and no keyword earlier in the list occurs; none is reported exactly when no listed keyword occurs |
| SqlGuard.CteOrDdlOrDmlError | backend/src/modules/sql-guard/sql-guard.service.ts:59-81 | a CTE error is reported exactly when `\bWITH\s+` matches the upper-cased text; any other error names the first forbidden keyword, in list order, that occurs as a whole word |
| SqlGuard.DangerousKeywordError | backend/src/modules/sql-guard/sql-guard.service.ts:83-91 | it reports only a keyword error, naming the first of EXEC, CALL, COPY, GRANT, REVOKE, in list order, that occurs as a whole word |
| SqlGuard.KeywordErrorsNone | backend/src/modules/sql-guard/sql-guard.service.ts:59-91 | both keyword checks pass exactly when no listed keyword occurs as a whole word and no `WITH` followed by whitespace occurs |
| SqlGuard.HasWordIff | backend/src/modules/sql-guard/sql-guard.service.ts:77 | the word scan finds a keyword exactly when it occurs with a word boundary on both sides |
| SqlGuard.EnforceLimitAddsLimit | backend/src/modules/sql-guard/sql-guard.service.ts:93-97 | the result always holds LIMIT as a word; a query with LIMIT is returned as is; enforcing twice equals enforcing once |
| SqlGuard.LimitWordAppended | backend/src/modules/sql-guard/sql-guard.service.ts:95-96 | the appended ` LIMIT n` is found by the `\bLIMIT\b` test, whatever the text before it |
| SqlGuard.SchemaRefAt | backend/src/modules/sql-guard/sql-guard.service.ts:100-101 | a match at a position is an identifier starting there, directly followed by a dot |
| SqlGuard.ReferencedSchemasFrom | backend/src/modules/sql-guard/sql-guard.service.ts:99-103 | every reported name is an identifier that occurs in the text directly followed by a dot; nothing is reported exactly when the pattern matches at no position from the start of the scan |
| SqlGuard.ReferencedSchemas | backend/src/modules/sql-guard/sql-guard.service.ts:99-103 | every name `findReferencedSchemas` returns is an identifier that occurs in the query directly followed by a dot; it returns nothing exactly when the pattern matches nowhere |
| SqlGuard.ReferencedSchemasStep | backend/src/modules/sql-guard/sql-guard.service.ts:101-102 | the global match reports the leftmost match first, keeps the part before the dot, and resumes after the end of the match |
| SqlGuard.QualifiedNameIsSchemaReference | backend/src/modules/sql-guard/sql-guard.service.ts:99-103 | for identifiers a and b, the text `a.b` references exactly the schema a, whether a is a schema or a table alias |
| SqlGuard.Violations | backend/src/modules/sql-guard/sql-guard.service.ts:30-32 | a name is a violation exactly when it is referenced and not in the allowlist |
| SqlGuard.ViolationsOrder | backend/src/modules/sql-guard/sql-guard.service.ts:30-32 | the filter keeps the references it lets through in their original order |
| SqlGuard.SchemaError | backend/src/modules/sql-guard/sql-guard.service.ts:29-38 | it reports only a schema error; `SchemaErrorNone` says when it reports none |
| SqlGuard.SchemaErrorNone | backend/src/modules/sql-guard/sql-guard.service.ts:29-38 | the schema check passes exactly when the allowlist is empty or every referenced schema is allowed |
| SqlGuard.LazyEndLeast | backend/src/modules/sql-guard/sql-guard.service.ts:107 | the lazy group stops at the first position where the lookahead holds, and fails exactly when it holds nowhere in range |
| SqlGuard.PredicateEndMeaning | backend/src/modules/sql-guard/sql-guard.service.ts:107 | the predicate capture from p stays on p's line and ends at the first position after p where `(?=\bJOIN\b\|$)` holds; it fails exactly when no position up to the end of the line has it |
| SqlGuard.PredicateStopsAtNewline | backend/src/modules/sql-guard/sql-guard.service.ts:107 | a predicate line that a newline ends before any JOIN gives no capture, because `$` without the m flag matches only at the end of the text |
| SqlGuard.PredicateFromLatest | backend/src/modules/sql-guard/sql-guard.service.ts:107 | backtracking over `\s+` keeps the latest start that has a predicate |
| SqlGuard.PredicateFromFinds | backend/src/modules/sql-guard/sql-guard.service.ts:107 | if any start in the whitespace run has a predicate, backtracking finds one |
| SqlGuard.PredicateFromNone | backend/src/modules/sql-guard/sql-guard.service.ts:107 | backtracking fails exactly when no start in the whitespace run has a predicate |
| SqlGuard.LineEnd | backend/src/modules/sql-guard/sql-guard.service.ts:107 | `[^\n]` stops at the first newline or the end of the text |
| SqlGuard.JoinMatchAtShape | backend/src/modules/sql-guard/sql-guard.service.ts:107 | a match at i is the head `JOIN\s+([\w_]+\.)?([\w_]+)\s+ON` at i, a predicate start within the whitespace run after ON, and the lazy capture from that start |
| SqlGuard.JoinHeadOf | backend/src/modules/sql-guard/sql-guard.service.ts:107 | for the text `JOIN sch.tbl rest`, the head matches exactly when `rest` starts with the word ON, and then ends right after it |
| SqlGuard.NextJoinMatchSkip | backend/src/modules/sql-guard/sql-guard.service.ts:107-110 | `exec` skips the positions where the pattern does not match, so the leftmost match wins |
| SqlGuard.NextJoinMatchNone | backend/src/modules/sql-guard/sql-guard.service.ts:107-110 | `exec` returns null when the pattern matches at no position |
| SqlGuard.NextJoinMatchFirst | backend/src/modules/sql-guard/sql-guard.service.ts:107-110 | the first match of the scan is the match at the first position where the pattern matches |
| SqlGuard.EqualityAtText | backend/src/modules/sql-guard/sql-guard.service.ts:113-115 | a match at j is the text `a.b\s*=\s*c.d` at j, each side being its two captured runs joined by a dot |
| SqlGuard.EqualityAtQualified | backend/src/modules/sql-guard/sql-guard.service.ts:113-115 | both sides of a match have the `x.y` form |
| SqlGuard.SpanRunsDetermine | backend/src/modules/sql-guard/sql-guard.service.ts:113 | conversely, greedy runs of the pattern laid out at j are exactly what the match finds there |
| SqlGuard.WordRunQualified | backend/src/modules/sql-guard/sql-guard.service.ts:113 | a word run followed by a dot and another word run forms a qualified side |
| SqlGuard.EqualitiesFound | backend/src/modules/sql-guard/sql-guard.service.ts:113-116 | an equality found at i is collected first, and `matchAll` resumes at its end |
| SqlGuard.EqualitiesSkip | backend/src/modules/sql-guard/sql-guard.service.ts:113-116 | `matchAll` skips the positions where no equality starts |
| SqlGuard.EqualitiesNone | backend/src/modules/sql-guard/sql-guard.service.ts:113-116 | `matchAll` collects nothing when no equality starts |
| SqlGuard.EqualitiesQualified | backend/src/modules/sql-guard/sql-guard.service.ts:112-116 | every comparison collected from one predicate has two qualified sides |
| SqlGuard.EqualitiesOfPair | backend/src/modules/sql-guard/sql-guard.service.ts:113-116 | `a.b = c.d` alone gives exactly one comparison, with sides `a.b` and `c.d` as written |
| SqlGuard.ComparisonsQualified | backend/src/modules/sql-guard/sql-guard.service.ts:107-117 | every comparison of every join predicate has two qualified sides |
| SqlGuard.CollectComparisons | backend/src/modules/sql-guard/sql-guard.service.ts:105-117 | the regex loop collects exactly `ComparisonsFrom` of the text |
| SqlGuard.ComparisonsFromStep | backend/src/modules/sql-guard/sql-guard.service.ts:108-116 | one loop iteration adds one predicate's comparisons |
| SqlGuard.ComparisonsFromEnd | backend/src/modules/sql-guard/sql-guard.service.ts:108 | past the last match the scan adds nothing |
| SqlGuard.NoJoinNoComparisons | backend/src/modules/sql-guard/sql-guard.service.ts:105-119 | a text with no JOIN yields no comparisons |
| SqlGuard.SingleJoinComparisons | backend/src/modules/sql-guard/sql-guard.service.ts:105-117 | with a single JOIN whose predicate runs to the end of a single line, the comparisons are exactly those of that predicate |
| SqlGuard.OneLineJoinComparisons | backend/src/modules/sql-guard/sql-guard.service.ts:105-117 | `… JOIN s.t ON a.b = c.d` on one line, with no other JOIN, yields exactly the comparison (`a.b`, `c.d`) |
| SqlGuard.AliasedJoinNoMatch | backend/src/modules/sql-guard/sql-guard.service.ts:107 | `JOIN s.t alias ON …` does not match, because the pattern allows no alias between the table and ON |
| SqlGuard.AliasedJoinUnchecked | backend/src/modules/sql-guard/sql-guard.service.ts:105-119 | so when that is the only JOIN, no comparison is collected and the join rule passes whatever the ON condition says |
| SqlGuard.MultiLineJoinNoMatch | backend/src/modules/sql-guard/sql-guard.service.ts:107 | an ON condition followed by a newline, with no JOIN after it, does not match, because `$` matches only at the end of the text |
| SqlGuard.MultiLineJoinUnchecked | backend/src/modules/sql-guard/sql-guard.service.ts:105-119 | so when that is the only JOIN, the join rule passes whatever the ON condition says |
| SqlGuard.AllowedPairs | backend/src/modules/sql-guard/sql-guard.service.ts:126-131 | the set built from the foreign keys equals `PairKeys` |
| SqlGuard.PairKeysMembers | backend/src/modules/sql-guard/sql-guard.service.ts:126-131 | a key is allowed exactly when it is the forward or backward key of some foreign key |
| SqlGuard.ComparisonError | backend/src/modules/sql-guard/sql-guard.service.ts:135-148 | it reports only an unqualified-join or a not-a-foreign-key error |
| SqlGuard.ComparisonErrorQualified | backend/src/modules/sql-guard/sql-guard.service.ts:135-148 | a qualified comparison fails exactly when its key pair is not allowed, and never as unqualified |
| SqlGuard.FirstJoinError | backend/src/modules/sql-guard/sql-guard.service.ts:133-149 | it reports only join errors; `FirstJoinErrorAt`, `FirstJoinErrorNone` and `FirstJoinErrorSome` say which |
| SqlGuard.FirstJoinErrorAt | backend/src/modules/sql-guard/sql-guard.service.ts:133-149 | a failure at index i with none before it is the reported error |
| SqlGuard.FirstJoinErrorNone | backend/src/modules/sql-guard/sql-guard.service.ts:133-149 | no error exactly when every comparison passes |
| SqlGuard.FirstJoinErrorSome | backend/src/modules/sql-guard/sql-guard.service.ts:133-149 | a reported error is the error of some comparison |
| SqlGuard.FirstJoinErrorIff | backend/src/modules/sql-guard/sql-guard.service.ts:133-149 | over qualified comparisons, the loop passes exactly when each comparison's candidate key is declared as the forward or backward key of some foreign key, and it never reports an unqualified join |
| SqlGuard.CheckComparisons | backend/src/modules/sql-guard/sql-guard.service.ts:133-149 | the comparison loop returns exactly `FirstJoinError` |
| SqlGuard.JoinError | backend/src/modules/sql-guard/sql-guard.service.ts:105-150 | it reports only join errors; `JoinErrorIff` says when |
| SqlGuard.EnsureJoinsAreForeignKeys | backend/src/modules/sql-guard/sql-guard.service.ts:105-150 | the method returns exactly `JoinError` |
| SqlGuard.JoinErrorIff | backend/src/modules/sql-guard/sql-guard.service.ts:105-150 | with foreign keys known, the join check passes exactly when every comparison's pair is declared in either direction |
| SqlGuard.JoinsRejectedWhenSchemasNamed | backend/src/modules/sql-guard/sql-guard.service.ts:126-148 | with non-empty schemas on the keys, a qualified join is rejected even when it follows a declared key |
| SqlGuard.EnforceLimitAppends | backend/src/modules/sql-guard/sql-guard.service.ts:93-97 | without LIMIT the result is the trimmed text followed by ` LIMIT n` |
| ResultProcessing.AlnumRunEnd | backend/src/modules/data-requests/utils/result-processing.util.ts:5 | the `[a-zA-Z0-9]*` run after the opening fence ends at the first other character |
| ResultProcessing.FenceBody | backend/src/modules/data-requests/utils/result-processing.util.ts:5-7 | a body is found only in text that starts with three backticks and ends with a newline and three backticks |
| ResultProcessing.StripCodeFences | backend/src/modules/data-requests/utils/result-processing.util.ts:4-9 | text that is not wrapped in fences is returned unchanged; the result is never longer |
| ResultProcessing.StripFencedBlock | backend/src/modules/data-requests/utils/result-processing.util.ts:4-9 | a block of fences around an alphanumeric tag, a newline and a body returns the trimmed body |
| ResultProcessing.FenceBodyShape | backend/src/modules/data-requests/utils/result-processing.util.ts:5-7 | whenever a body is found, the text is exactly fences, an alphanumeric tag, a newline, the body, a newline and fences |
| ResultProcessing.SliceEnd | backend/src/modules/data-requests/utils/result-processing.util.ts:16 | `slice(0, maxRows)` keeps maxRows rows when 0 ≤ maxRows ≤ length, and all of them when maxRows is larger |
| ResultProcessing.ShrinkLength | backend/src/modules/data-requests/utils/result-processing.util.ts:19 | `max(1, floor(n·0.8))` lies between 1 and n, and is smaller than n exactly when n ≥ 2 |
| ResultProcessing.Shrink | backend/src/modules/data-requests/utils/result-processing.util.ts:16-21 | the kept rows are a prefix of the input; they fit the byte budget unless the input is empty; an input that fits is kept whole; no result means one row alone is over the budget |
| ResultProcessing.ShrinkHangs | backend/src/modules/data-requests/utils/result-processing.util.ts:18-21 | when every non-empty prefix is over the budget the loop never ends, and the model returns None |
| ResultProcessing.LimitRowsAndSize | backend/src/modules/data-requests/utils/result-processing.util.ts:11-23 | the result is the re-parsed `Shrink` of the first maxRows rows, and None exactly when the loop would not end |
| ResultProcessing.Stars | backend/src/modules/data-requests/utils/result-processing.util.ts:43 | n stars |
| ResultProcessing.MaskString | backend/src/modules/data-requests/utils/result-processing.util.ts:41-44 | four characters or fewer become that many stars; a longer text becomes its first two characters, `***` and its last two |
| ResultProcessing.MaskStringIdempotent | backend/src/modules/data-requests/utils/result-processing.util.ts:41-44 | masking twice equals masking once |
| ResultProcessing.MaskValue | backend/src/modules/data-requests/utils/result-processing.util.ts:31-34 | a string becomes its `maskString`; a number, or any other truthy value, becomes `***`; any other falsy value is kept |
| ResultProcessing.MaskValueIdempotent | backend/src/modules/data-requests/utils/result-processing.util.ts:30-35 | masking a value twice equals masking it once |
| ResultProcessing.PiiKeyIgnoresCase | backend/src/modules/data-requests/utils/result-processing.util.ts:26 | the patterns carry the `i` flag: a key and its upper-case form are PII keys together |
| ResultProcessing.MaskRow | backend/src/modules/data-requests/utils/result-processing.util.ts:27-38 | the masked row has the same keys in the same order |
| ResultProcessing.MaskPII | backend/src/modules/data-requests/utils/result-processing.util.ts:25-39 | the loop masks every row: same length, each row is `MaskRow` of its input |
| ResultProcessing.MaskRowGet | backend/src/modules/data-requests/utils/result-processing.util.ts:28-36 | each key keeps its presence, and its value is masked exactly when the key matches a personal-data pattern |
| ResultProcessing.MaskRowIdempotent | backend/src/modules/data-requests/utils/result-processing.util.ts:25-39 | masking rows twice equals masking them once |
| ResultProcessing.ToColumnPrimitive | backend/src/modules/data-requests/utils/result-processing.util.ts:57-67 | the result is always a column primitive; primitives are kept; a Date becomes its ISO text; anything else becomes its JSON text, or `[unserializable]` when stringify yields nothing or throws |
| ResultProcessing.PushValue | backend/src/modules/data-requests/utils/result-processing.util.ts:50-51 | the value is appended to its column, which is added at the end when missing; other columns are unchanged; keys stay distinct |
| ResultProcessing.PushValueSteps | backend/src/modules/data-requests/utils/result-processing.util.ts:50-51 | creating the array when it is falsy and then pushing is `PushValue` |
| ResultProcessing.PushRow | backend/src/modules/data-requests/utils/result-processing.util.ts:49-52 | adding a row keeps the table columnar with distinct keys |
| ResultProcessing.Columnar | backend/src/modules/data-requests/utils/result-processing.util.ts:46-55 | the table is columnar with distinct keys |
| ResultProcessing.RowsToColumnar | backend/src/modules/data-requests/utils/result-processing.util.ts:46-55 | the nested loop computes exactly `Columnar` |
| ResultProcessing.PushRowKeys | backend/src/modules/data-requests/utils/result-processing.util.ts:49-52 | after a row the keys are the distinct keys seen so far followed by the row's new keys |
| ResultProcessing.PushRowItems | backend/src/modules/data-requests/utils/result-processing.util.ts:49-52 | each column grows by the converted values of the row's members with that key |
| ResultProcessing.ColumnarKeys | backend/src/modules/data-requests/utils/result-processing.util.ts:46-55 | the columns are the distinct keys of all rows, in first-seen order |
| ResultProcessing.ColumnarItems | backend/src/modules/data-requests/utils/result-processing.util.ts:46-55 | a column lists, in row order, the converted values of all members with its key |
| ResultProcessing.RowColumnDistinct | backend/src/modules/data-requests/utils/result-processing.util.ts:49-51 | a row with distinct keys adds one value to each of its keys and nothing to others |
| ResultProcessing.ColumnOfUniform | backend/src/modules/data-requests/utils/result-processing.util.ts:46-55 | when every row has the key, its column has one value per row, the i-th from row i |
| ResultProcessing.ParseItem | backend/src/modules/data-requests/utils/result-processing.util.ts:78-92 | the result is a column primitive; a primitive is kept; anything else becomes its JSON text, or `[unserializable]` when stringify yields nothing or throws (this path has no Date case) |
| ResultProcessing.ParseItems | backend/src/modules/data-requests/utils/result-processing.util.ts:77-93 | one item per source item, each read by `ParseItem` |
| ResultProcessing.ParseColumns | backend/src/modules/data-requests/utils/result-processing.util.ts:73-95 | a table is read exactly when every member is an array, and it is columnar |
| ResultProcessing.PutColumn | backend/src/modules/data-requests/utils/result-processing.util.ts:94 | storing a column keeps the table columnar |
| ResultProcessing.ParsedTable | backend/src/modules/data-requests/utils/result-processing.util.ts:69-97 | a table comes only from an object value, and it is columnar |
| ResultProcessing.ParseColumnarTable | backend/src/modules/data-requests/utils/result-processing.util.ts:69-97 | the loop computes exactly `ParsedTable` |
| ResultProcessing.ParsedColumnarTable | backend/src/modules/data-requests/utils/result-processing.util.ts:69-97 | a columnar table with distinct column names, stored as an object, is parsed back unchanged |
| ResultProcessing.ParseColumnsNone | backend/src/modules/data-requests/utils/result-processing.util.ts:74 | a member that is not an array rejects the whole table |
| ResultProcessing.ParseColumnsIdentity | backend/src/modules/data-requests/utils/result-processing.util.ts:73-95 | distinct columns of primitives read back as themselves |
| ResultProcessing.ColumnarRoundTrip | backend/src/modules/data-requests/utils/result-processing.util.ts:46-97 | a table built by `rowsToColumnar` is read back unchanged by `parseColumnarTable` |
| ResultProcessing.ColumnarMembers | backend/src/modules/data-requests/utils/result-processing.util.ts:46-55 | every column of a columnar table holds only primitives |
| ResultProcessing.ToJsonValue | backend/src/modules/data-requests/utils/result-processing.util.ts:99-124 | a value converts exactly when it is nested at most 8 deep and holds no undefined, bigint, symbol or function; the result is JSON; objects and dates give objects, arrays give arrays |
| ResultProcessing.ToJsonItems | backend/src/modules/data-requests/utils/result-processing.util.ts:104-112 | an array converts exactly when every item does, keeping its length |
| ResultProcessing.ToJsonMembers | backend/src/modules/data-requests/utils/result-processing.util.ts:113-122 | an object converts exactly when every member does; the result has distinct keys and JSON values |
| ResultProcessing.PutJsonMember | backend/src/modules/data-requests/utils/result-processing.util.ts:119 | assigning a JSON member keeps the object JSON with distinct keys |
| ResultProcessing.ToJsonIdentity | backend/src/modules/data-requests/utils/result-processing.util.ts:99-124 | a JSON value within the depth bound is returned unchanged |
| ResultProcessing.ToJsonItemsIdentity | backend/src/modules/data-requests/utils/result-processing.util.ts:104-112 | JSON arrays are returned unchanged |
| ResultProcessing.ToJsonMembersIdentity | backend/src/modules/data-requests/utils/result-processing.util.ts:113-122 | JSON objects with distinct keys are returned unchanged |
| ResultProcessing.AsJsonObject | backend/src/modules/data-requests/utils/result-processing.util.ts:126-130 | an object results exactly when the input is an object or date that converts; the result is a JSON object |
| DataRequests.QualifiedColumns | backend/src/modules/data-requests/services/data-requests.service.ts:301-303 | one `schema.table.column` entry per column, in order |
| DataRequests.GenerateSqlStub | backend/src/modules/data-requests/services/data-requests.service.ts:292-305 | `SELECT 1` without a table; otherwise exactly `SELECT ` + the select list + ` FROM schema.table` of the first table; `StubSelectsLeadingColumns` says what the list holds |
| DataRequests.StubSelectsLeadingColumns | backend/src/modules/data-requests/services/data-requests.service.ts:296-304 | the select list is `*` for a table without columns, and otherwise its first five columns (all of them when it has fewer), each as `schema.table.column`, joined by `, ` |
| DataRequests.StubWithoutColumns | backend/src/modules/data-requests/services/data-requests.service.ts:304 | a table without columns gives `SELECT * FROM schema.table` |
| DataRequests.SqlFromReply | backend/src/modules/data-requests/services/data-requests.service.ts:108-126 | a SQL text is taken only from a non-blank reply |
| DataRequests.ChooseSql | backend/src/modules/data-requests/services/data-requests.service.ts:104-127 | the query is the stub or a non-empty text; without a reply it is the stub |
| DataRequests.ChooseSqlFromJson | backend/src/modules/data-requests/services/data-requests.service.ts:113-118 | a JSON reply with a non-blank `sql` string gives that string trimmed |
| DataRequests.ChooseSqlRawText | backend/src/modules/data-requests/services/data-requests.service.ts:119-122 | a reply that does not parse is used as raw SQL after the fences are removed |
| DataRequests.ChooseSqlNoField | backend/src/modules/data-requests/services/data-requests.service.ts:115-127 | parsed JSON without a string `sql` falls back to the stub |
| DataRequests.CountBusinessNames | backend/src/modules/data-requests/services/data-requests.service.ts:327-334 | the loop computes exactly `CountNames` |
| DataRequests.CountColumnsMeaning | backend/src/modules/data-requests/services/data-requests.service.ts:328-334 | counting one table's columns adds their occurrences of each name |
| DataRequests.CountNamesMeaning | backend/src/modules/data-requests/services/data-requests.service.ts:327-334 | a name's count is the number of columns carrying it as a non-blank business name |
| DataRequests.BuildTechToBiz | backend/src/modules/data-requests/services/data-requests.service.ts:335-342 | the loop computes exactly `TechMap` |
| DataRequests.TechColumnsMeaning | backend/src/modules/data-requests/services/data-requests.service.ts:336-342 | after one table a technical name is mapped exactly when it was before or one of its columns renames, and to the earlier value or such a column's business name |
| DataRequests.TechMapMeaning | backend/src/modules/data-requests/services/data-requests.service.ts:335-342 | a technical name is mapped exactly when some column with it renames, and to the business name of such a column |
| DataRequests.RenamesIffUnique | backend/src/modules/data-requests/services/data-requests.service.ts:330-338 | a column renames exactly when its business name is non-blank and carried by no other column |
| DataRequests.OccurrencesNonBlank | backend/src/modules/data-requests/services/data-requests.service.ts:330 | only non-blank names are counted |
| DataRequests.OccurrencesInNonBlank | backend/src/modules/data-requests/services/data-requests.service.ts:330 | only non-blank names are counted within a table |
| DataRequests.TechToBizMeaning | backend/src/modules/data-requests/services/data-requests.service.ts:326-342 | a key maps to a business name exactly when some column with that technical name has a unique business name |
| DataRequests.RenameKeys | backend/src/modules/data-requests/services/data-requests.service.ts:345-350 | the loop computes exactly `RenameRow` |
| DataRequests.ApplyBusinessNamesToRows | backend/src/modules/data-requests/services/data-requests.service.ts:308-352 | the same number of rows; with no unique business names the rows are returned as they are, otherwise each row is renamed with the map (the loop is `RenameRows`) |
| DataRequests.RenameRows | backend/src/modules/data-requests/services/data-requests.service.ts:343-351 | the row loop renames every row with the same map and keeps the row order |
| DataRequests.RenameRowKeys | backend/src/modules/data-requests/services/data-requests.service.ts:344-351 | a renamed row has a key exactly when some original key renames to it |
| DataRequests.RenameRowGet | backend/src/modules/data-requests/services/data-requests.service.ts:346-349 | a value is found under its renamed key unless a later key renames to the same name |
| DataRequests.RenameRowValues | backend/src/modules/data-requests/services/data-requests.service.ts:344-351 | renaming invents no values |
| DataRequests.SchemaNames | backend/src/modules/data-requests/services/data-requests.service.ts:129 | one schema name per table, in order |
| DataRequests.PipelineGuardOptions | backend/src/modules/data-requests/services/data-requests.service.ts:129-138 | LIMIT 101, free joins forbidden, 10 s timeout; the allowlist is exactly the metadata's schemas, without duplicates |
| DataRequests.ResultText | backend/src/modules/data-requests/services/data-requests.service.ts:160-171 | a non-blank reply gives its trimmed text; otherwise the default text with the row count |
| DataRequests.GraphConfig | backend/src/modules/data-requests/services/data-requests.service.ts:182-191 | a graph configuration is a JSON object; there is none without a reply, and none when the fence-stripped reply does not parse |
| DataRequests.GraphConfigOfFencedReply | backend/src/modules/data-requests/services/data-requests.service.ts:182-187 | a reply fenced with an alphanumeric tag whose trimmed body parses gets the configuration `asJsonObject` makes of the parsed value, and none when that value is not an object |
| DataRequests.ProcessRowsSteps | backend/src/modules/data-requests/services/data-requests.service.ts:148-153 | limit, mask and rename in that order give `ProcessRows` |
| DataRequests.ProcessResultRows | backend/src/modules/data-requests/services/data-requests.service.ts:148-153 | the row and size limits, PII masking and business names, applied in that order, give `ProcessRows` (None where the limit step never returns) |
| DataRequests.OutcomeCases | backend/src/modules/data-requests/services/data-requests.service.ts:127-215 | a guard rejection and a driver error each end the pipeline with their own error; a success carries the request id, SUCCEEDED, exactly the SQL the guard returned, a columnar table with distinct column names, and a JSON object or nothing as its graph; no other error occurs |
| DataRequests.RunPipeline | backend/src/modules/data-requests/services/data-requests.service.ts:102-215 | steps 2 to 8 return what `Outcome` describes |
| DataRequests.RequestStore.CreatePending | backend/src/modules/data-requests/services/data-requests.service.ts:89-91 | appends one PENDING record under the next free id and changes nothing else; a log with no FAILED record never gains one |
| DataRequests.RequestStore.MarkSucceeded | backend/src/modules/data-requests/services/data-requests.service.ts:196-205 | only the given record changes: it becomes SUCCEEDED with the result's SQL, text, table and graph, keeping its id, owner, workspace and prompt |
| DataRequests.RequestStore.CreateAndExecute | backend/src/modules/data-requests/services/data-requests.service.ts:81-216 | an unknown workspace or a missing data source fails before anything is stored; otherwise exactly one record is appended and the answer is `Outcome`; a failed pipeline leaves that record PENDING, a successful one makes it SUCCEEDED with the result's SQL, text, table and graph; a log with no FAILED record never gains one |
| RateLimit.Count | backend/src/modules/data-requests/interceptors/workspace-rate-limit.interceptor.ts:29-34 | a new or expired entry restarts at count 1 from `now`; otherwise the count grows by one in the same window |
| RateLimit.Admitted | backend/src/modules/data-requests/interceptors/workspace-rate-limit.interceptor.ts:36-39 | never more requests are let through than were counted, nor more than the limit |
| RateLimit.WorkspaceRateLimiter.constructor | backend/src/modules/data-requests/interceptors/workspace-rate-limit.interceptor.ts:14-19 | the limit and window are stored; the state is empty |
| RateLimit.WorkspaceRateLimiter.Intercept | backend/src/modules/data-requests/interceptors/workspace-rate-limit.interceptor.ts:21-40 | a non-finite id passes and changes nothing; otherwise the entry is counted and the request is rejected exactly when the count exceeds the limit; per workspace, the requests let through in a window never exceed the limit |
| RateLimit.CountsWithinWindow | backend/src/modules/data-requests/interceptors/workspace-rate-limit.interceptor.ts:28-36 | within one window every request, rejected or not, adds one to the count |
| WorkspacesUtil.NormalizeConfig | backend/src/modules/workspaces/utils/workspaces.util.ts:4-50 | accepted exactly when the payload is an object, the port (a number, or `Number()` of anything else) is finite and host, database, user and password are strings; each failure has its own message; the fields are copied, and for Postgres `ssl` is the boolean or the string `true` |
| WorkspacesUtil.NormalizePostgresConfig | backend/src/modules/workspaces/utils/workspaces.util.ts:4-27 | a normalized Postgres config always carries the `ssl` flag |
| WorkspacesUtil.NormalizeMysqlConfig | backend/src/modules/workspaces/utils/workspaces.util.ts:29-50 | the MySQL version accepts exactly what the Postgres version accepts and returns the same fields without `ssl` |
| WorkspacesUtil.AsPostgresConfigOrThrow | backend/src/modules/workspaces/utils/workspaces.util.ts:52-65 | the value comes back unchanged, or the error is `Invalid Postgres config` |
| WorkspacesUtil.AsMysqlConfigOrThrow | backend/src/modules/workspaces/utils/workspaces.util.ts:67-80 | the same test as the Postgres version; the value comes back unchanged, or the error is `Invalid MySQL config` |
| WorkspacesUtil.AsConfigOrThrow | backend/src/modules/workspaces/utils/workspaces.util.ts:52-80 | accepted, unchanged, exactly when the value is an object whose four text fields are strings and whose port is a number; otherwise the dialect's error |
| WorkspacesUtil.NormalizeVersusReadCheck | backend/src/modules/workspaces/utils/workspaces.util.ts:4-65 | with a numeric port, normalizing succeeds exactly when the read check passes and the port is finite |
| WorkspacesUtil.NaNPortOnlyPassesTheReadCheck | backend/src/modules/workspaces/utils/workspaces.util.ts:10-11 | a port that converts to NaN still passes the read check, which tests only `typeof` |
| WorkspacesUtil.TextPortIsConverted | backend/src/modules/workspaces/utils/workspaces.util.ts:10-11 | a port given as text is replaced by its numeric conversion |
| WorkspacesUtil.DropLeadingFence | backend/src/modules/workspaces/utils/workspaces.util.ts:83 | without an opening fence the text is unchanged; with one, the three backticks go, and so does a directly following `json` tag in any letter case |
| WorkspacesUtil.DropFenceTag | backend/src/modules/workspaces/utils/workspaces.util.ts:83 | an opening fence followed by no tag or by `json` in any letter case, then a line break, loses the fence and the tag and keeps the line break |
| WorkspacesUtil.DropTrailingFence | backend/src/modules/workspaces/utils/workspaces.util.ts:83 | a closing fence is removed, and only when present |
| WorkspacesUtil.CleanMarkdownJson | backend/src/modules/workspaces/utils/workspaces.util.ts:82-84 | the result neither starts nor ends with whitespace; `CleanFencedJson` and `CleanUnfenced` say what it is |
| WorkspacesUtil.CleanUnfenced | backend/src/modules/workspaces/utils/workspaces.util.ts:82-84 | text without fences is only trimmed |
| WorkspacesUtil.CleanFencedJson | backend/src/modules/workspaces/utils/workspaces.util.ts:82-84 | a body wrapped in a bare fence, or in one tagged `json` in any letter case, comes back trimmed |
| WorkspacesUtil.CleanLowerCaseFence | backend/src/modules/workspaces/utils/workspaces.util.ts:82-84 | a reply fenced with a lower-case `json` tag comes back as its trimmed body |
| WorkspacesUtil.CleanUpperCaseFence | backend/src/modules/workspaces/utils/workspaces.util.ts:82-84 | a reply fenced with an upper-case `JSON` tag comes back as its trimmed body |
| WorkspacesUtil.CleanBareFence | backend/src/modules/workspaces/utils/workspaces.util.ts:82-84 | a reply fenced without a tag comes back as its trimmed body |
| WorkspaceIngest.FirstWithKey | backend/src/modules/workspaces/services/workspaces.service.ts:285-294 | the index of the first item with a key, or the length when no item has it |
| WorkspaceIngest.KeepFirstMeaning | backend/src/modules/workspaces/services/workspaces.service.ts:285-324 | dedup keeps every key exactly once, each kept item is the first input item with its key, and the kept items are in the order their keys first occur |
| WorkspaceIngest.DedupTables | backend/src/modules/workspaces/services/workspaces.service.ts:285-294 | the loop keeps the first table per schema and name |
| WorkspaceIngest.DedupFks | backend/src/modules/workspaces/services/workspaces.service.ts:317-324 | the loop keeps the first foreign key per source column |
| WorkspaceIngest.SecondFkFromSameColumnDropped | backend/src/modules/workspaces/services/workspaces.service.ts:317-324 | a second foreign key from the same column is dropped even when it points elsewhere |
| WorkspaceIngest.MergeColumnsMeaning | backend/src/modules/workspaces/services/workspaces.service.ts:299-312 | one column per key, in the order the keys first occur; the primary-key and nullable flags are the OR over all copies; the rest comes from the first copy |
| WorkspaceIngest.DedupColumns | backend/src/modules/workspaces/services/workspaces.service.ts:299-312 | the loop computes exactly `MergeColumns` |
| WorkspaceIngest.DedupColumnsMeaning | backend/src/modules/workspaces/services/workspaces.service.ts:299-312 | the deduplicated columns have every input key once, in first-occurrence order, each merged from all its copies |
| WorkspaceIngest.DedupMeaning | backend/src/modules/workspaces/services/workspaces.service.ts:285-324 | the three dedup passes together: tables keep each schema and name once and foreign keys each source column once, each in first-occurrence order; columns are merged per key, in first-occurrence order |
| WorkspaceIngest.ColumnEntriesMeaning | backend/src/modules/workspaces/services/workspaces.service.ts:383-393 | a column name has an entry exactly when some item names it non-empty, and the entry is the names of the last such item |
| WorkspaceIngest.UnnamedColumnIgnored | backend/src/modules/workspaces/services/workspaces.service.ts:385-386 | an entry without a column name is skipped |
| WorkspaceIngest.ReadColumnEntries | backend/src/modules/workspaces/services/workspaces.service.ts:383-393 | the loop computes exactly `ColumnEntries` |
| WorkspaceIngest.UnparsableReplyIgnored | backend/src/modules/workspaces/services/workspaces.service.ts:373-397 | a reply that does not parse to an object gives no names |
| WorkspaceIngest.FencedReplyParsesBody | backend/src/modules/workspaces/services/workspaces.service.ts:373-374 | a fenced reply is parsed from its body |
| WorkspaceIngest.ReadBusinessNames | backend/src/modules/workspaces/services/workspaces.service.ts:362-398 | the names read from one table's reply are exactly `TableBusiness` |
| WorkspaceIngest.ColumnsOf | backend/src/modules/workspaces/services/workspaces.service.ts:339-341 | exactly the columns with the table's schema and name |
| WorkspaceIngest.BizMapMeaning | backend/src/modules/workspaces/services/workspaces.service.ts:338-408 | the map has one entry per exact-case table key, holding that table's own reply |
| WorkspaceIngest.OtherTablesUnaffected | backend/src/modules/workspaces/services/workspaces.service.ts:338-408 | changing one table's reply leaves the names of every other key unchanged |
| WorkspaceIngest.BuildBizMap | backend/src/modules/workspaces/services/workspaces.service.ts:338-408 | the loop computes exactly `BizMap` |
| WorkspaceIngest.IdMapMeaning | backend/src/modules/workspaces/services/workspaces.service.ts:419-431 | each key maps to the id given to its item, the first id plus its position |
| WorkspaceIngest.IdMapValues | backend/src/modules/workspaces/services/workspaces.service.ts:419-431 | every mapped id is the first id plus the position of an item with that key |
| WorkspaceIngest.TableRows | backend/src/modules/workspaces/services/workspaces.service.ts:419-431 | one stored table per table, the i-th with the first id plus i |
| WorkspaceIngest.WrittenMembers | backend/src/modules/workspaces/services/workspaces.service.ts:444-446 | exactly the columns whose table key resolves to a stored table are written |
| WorkspaceIngest.ColumnRows | backend/src/modules/workspaces/services/workspaces.service.ts:443-474 | one stored column per written column, with consecutive ids |
| WorkspaceIngest.FkRow | backend/src/modules/workspaces/services/workspaces.service.ts:477-491 | a foreign key is stored exactly when both its tables and both its columns were stored |
| WorkspaceIngest.FkRows | backend/src/modules/workspaces/services/workspaces.service.ts:477-499 | the stored foreign keys are exactly those of the input that resolve |
| WorkspaceIngest.TableIdStored | backend/src/modules/workspaces/services/workspaces.service.ts:419-431 | a mapped table id belongs to a stored table |
| WorkspaceIngest.ColumnIdStored | backend/src/modules/workspaces/services/workspaces.service.ts:443-474 | a mapped column id belongs to a stored column |
| WorkspaceIngest.ColumnsBelongToTables | backend/src/modules/workspaces/services/workspaces.service.ts:443-474 | every stored column's table id is a stored table |
| WorkspaceIngest.FksJoinStored | backend/src/modules/workspaces/services/workspaces.service.ts:477-499 | every stored foreign key joins two stored columns |
| WorkspaceIngest.IngestReferentialIntegrity | backend/src/modules/workspaces/services/workspaces.service.ts:413-499 | the stored tables and columns get consecutive ids, every column belongs to a stored table, and every foreign key joins stored tables and columns |
| WorkspaceIngest.ColumnWrittenIffTableKnown | backend/src/modules/workspaces/services/workspaces.service.ts:445-446 | a column is stored exactly when its table was among the deduplicated tables |
| WorkspaceIngest.CaseMismatchLosesBusinessNames | backend/src/modules/workspaces/services/workspaces.service.ts:447-448 | a column whose exact-case table key matches no table is still stored under a table, but without business name or description |
| WorkspaceIngest.ColumnTakesTableReply | backend/src/modules/workspaces/services/workspaces.service.ts:447-463 | a stored column takes its business name and description from its own table's reply, or none when the reply does not name it |
| WorkspaceIngest.WriteTables | backend/src/modules/workspaces/services/workspaces.service.ts:419-440 | the loop writes exactly `TableRows` and the id map |
| WorkspaceIngest.WriteColumns | backend/src/modules/workspaces/services/workspaces.service.ts:443-474 | the loop writes exactly `ColumnRows` |
| WorkspaceIngest.WriteFks | backend/src/modules/workspaces/services/workspaces.service.ts:477-499 | the loop writes exactly `FkRows` |
| WorkspaceIngest.WriteSnapshot | backend/src/modules/workspaces/services/workspaces.service.ts:276-499 | dedup, names and the transaction give exactly `Ingest` |
| Workspaces.PatchWorkspace | backend/src/modules/workspaces/services/workspaces.service.ts:95-99 | only non-empty fields overwrite; the owner is kept |
| Workspaces.PatchWorkspaceIdempotent | backend/src/modules/workspaces/services/workspaces.service.ts:95-99 | applying a patch twice equals applying it once |
| Workspaces.EmptyPatchKeepsWorkspace | backend/src/modules/workspaces/services/workspaces.service.ts:95-99 | a patch of missing or empty fields changes nothing |
| Workspaces.PatchTable | backend/src/modules/workspaces/services/workspaces.service.ts:229-235 | a field that is present overwrites even when empty; the id and technical names are kept |
| Workspaces.PatchColumn | backend/src/modules/workspaces/services/workspaces.service.ts:251-257 | a field that is present overwrites; the id, table, technical name, type and flags are kept |
| Workspaces.PatchTableIdempotent | backend/src/modules/workspaces/services/workspaces.service.ts:229-235 | applying a table patch twice equals applying it once |
| Workspaces.TableIndex | backend/src/modules/workspaces/services/workspaces.service.ts:227 | the index of the table with that id, or the length when there is none |
| Workspaces.ColumnIndex | backend/src/modules/workspaces/services/workspaces.service.ts:247-249 | the index of the column with that id in the given table, or the length when there is none |
| Workspaces.PatchTableKeepsSnapshotOk | backend/src/modules/workspaces/services/workspaces.service.ts:229-235 | a table patch keeps ids unique and every reference resolving |
| Workspaces.PatchColumnKeepsSnapshotOk | backend/src/modules/workspaces/services/workspaces.service.ts:251-257 | a column patch keeps ids unique and every reference resolving |
| Workspaces.IngestSnapshotOk | backend/src/modules/workspaces/services/workspaces.service.ts:413-499 | an ingested snapshot is sound and its ids lie in the range it was given |
| Workspaces.StoreOkIngest | backend/src/modules/workspaces/services/workspaces.service.ts:413-499 | replacing a workspace's snapshot by an ingested one keeps the store sound |
| Workspaces.StoreOkReplace | backend/src/modules/workspaces/services/workspaces.service.ts:416-499 | replacing one snapshot by a sound one keeps the store sound |
| Workspaces.WorkspaceStore.UpdateWorkspace | backend/src/modules/workspaces/services/workspaces.service.ts:83-106 | a workspace the user does not own fails with the not-found message; otherwise only that workspace is patched and returned |
| Workspaces.WorkspaceStore.UpdateTableBusiness | backend/src/modules/workspaces/services/workspaces.service.ts:220-236 | a foreign workspace or an unknown table fails and changes nothing; an owned workspace whose snapshot holds the table succeeds; a success patches exactly that table of that workspace |
| Workspaces.WorkspaceStore.UpdateColumnBusiness | backend/src/modules/workspaces/services/workspaces.service.ts:239-258 | a foreign workspace, or a column that is not in the given table, fails and changes nothing; an owned workspace whose snapshot holds that column of that table succeeds; a success patches exactly that column |
| Workspaces.WorkspaceStore.ReplaceSnapshot | backend/src/modules/workspaces/services/workspaces.service.ts:413-499 | the old snapshot is deleted and the new one is stored; other workspaces are unchanged |
| Workspaces.WorkspaceStore.IngestWorkspace | backend/src/modules/workspaces/services/workspaces.service.ts:260-502 | a missing data source or a config that fails the read check fails with its message and changes nothing; otherwise the workspace's snapshot becomes `Ingest` of the introspected metadata and the replies, with fresh ids |
| LlmClient.Body | backend/src/common/llm/llm.client.ts:44-51 | an empty model falls back to the configured one (`\|\|`); the other fields default with `??` to the token budget, 0, false and `text` |
| LlmClient.FirstSuccess | backend/src/common/llm/llm.client.ts:53-64 | the first attempt that returns, or n: every earlier attempt failed |
| LlmClient.Backoff | backend/src/common/llm/llm.client.ts:66-67 | the i-th wait is 500·(i+1) ms |
| LlmClient.Completions | backend/src/common/llm/llm.client.ts:42-71 | a negative retry count makes no attempt and fails; otherwise the first successful attempt's JSON is returned after k failed attempts and k waits, or, when all retries+1 attempts fail, the last error is rethrown after retries waits |
| LlmClient.FirstSuccessStable | backend/src/common/llm/llm.client.ts:53-64 | more attempts do not move the first success |
| LlmClient.BackoffTotal | backend/src/common/llm/llm.client.ts:65-68 | k waits sum to 250·k·(k+1) ms |
| LlmClient.FirstTextPriority | backend/src/common/llm/llm.client.ts:73-77 | a non-empty `output_text` wins; then a non-empty first message content; then the first choice's `text` |
| LlmClient.FirstTextNonEmpty | backend/src/common/llm/llm.client.ts:73-77 | the text is non-empty exactly when one of the three candidates is |
| LlmClient.NoChoiceNoText | backend/src/common/llm/llm.client.ts:75-76 | without output text and without choices there is no text |
| Auth.Digits | frontend/src/modules/auth/services/auth.service.ts:21 | only digits remain, never more than the input, and the text is unchanged exactly when it is all digits |
| Auth.DigitsSnoc | frontend/src/modules/auth/services/auth.service.ts:21 | `replace(/\D/g, '')` character by character: appending a character keeps the digits so far and adds the character exactly when it is a digit, so the result is the digits of the input in order with nothing else dropped |
| Auth.FormattedPhone | frontend/src/modules/auth/services/auth.service.ts:20-29 | `+` followed by the digits; it never starts with `+8` |
| Auth.FormatPhoneNumber | frontend/src/modules/auth/services/auth.service.ts:20-29 | the three reassignments compute exactly `FormattedPhone` |
| Auth.DigitsAppend | frontend/src/modules/auth/services/auth.service.ts:21 | the digits of a concatenation are the concatenation of the digits |
| Auth.FormattedFixed | frontend/src/modules/auth/services/auth.service.ts:20-29 | a number of the stored shape ('+', then digits not starting with 8) is left unchanged by formatting |
| Auth.FormatIdempotent | frontend/src/modules/auth/services/auth.service.ts:20-29 | a number has the stored shape exactly when formatting leaves it unchanged; formatting twice is formatting once |
| Auth.ValidPhoneFormat | frontend/src/modules/auth/services/auth.service.ts:20-35 | a valid number formats to `+7` followed by its last ten digits |
| Auth.SameSubscriberSameKey | frontend/src/modules/auth/services/auth.service.ts:20-35 | `+7XXXXXXXXXX` and `8XXXXXXXXXX` are both valid and are stored as the same number |
| Auth.FindUser | frontend/src/modules/auth/services/auth.service.ts:49 | found exactly when some user has the number; the user found is a stored one and has it |
| Auth.FindUserFirst | frontend/src/modules/auth/services/auth.service.ts:49 | the user found is the first one stored under the number |
| Auth.UsersOkSnoc | frontend/src/modules/auth/services/auth.service.ts:115-135 | appending a user with a new formatted number keeps numbers formatted and distinct |
| Auth.AuthStore.constructor | frontend/src/modules/auth/services/auth.service.ts:10-11 | no users and nobody signed in |
| Auth.AuthStore.Login | frontend/src/modules/auth/services/auth.service.ts:38-62 | invalid numbers are rejected; otherwise it succeeds exactly when the formatted number is registered |
| Auth.AuthStore.VerifyOtp | frontend/src/modules/auth/services/auth.service.ts:65-94 | only the code 1111 for a registered number signs that user in with the mock token; every failure leaves the signed-in user unchanged |
| Auth.AuthStore.Register | frontend/src/modules/auth/services/auth.service.ts:97-141 | a blank name, an invalid number and a registered number are rejected in that order; otherwise exactly one user is added under the formatted number; numbers stay distinct |
| Auth.ValidPhoneShape | frontend/src/modules/auth/services/auth.service.ts:32-35 | `/^(\+7\|8)[0-9]{10}$/` holds exactly when the number is `+7` or `8` followed by its last ten characters, all of them digits |
| Auth.RegisterKeepsUsersOk | frontend/src/modules/auth/services/auth.service.ts:126-135 | adding a user under a new formatted number keeps the user list consistent and the signed-in user in it |
| Auth.AuthStore.Logout | frontend/src/modules/auth/services/auth.service.ts:150-153 | nobody is signed in afterwards; users are unchanged |
| Polling.FinalIffNotActive | frontend/src/modules/home/composables/data-requests.composable.ts:26 | `isActive` holds for PENDING only, so a status is final exactly when it is not polled |
| Polling.DetailEnabledIffKeyed | frontend/src/modules/home/composables/data-requests.composable.ts:116-122 | the detail query is enabled exactly when its key names a request, with both ids set and non-zero; a missing or zero id disables it |
| Polling.CadenceOf | frontend/src/modules/home/composables/data-requests.composable.ts:63-65 | missing options default to 2000, 60000 and 5000 ms |
| Polling.Interval | frontend/src/modules/home/composables/data-requests.composable.ts:79-88 | polling stops exactly when the status is not PENDING; otherwise the interval is baseMs or slowMs; `IntervalAfterActiveRun` and `IntervalOfFirstActivePoll` say which |
| Polling.Poller.constructor | frontend/src/modules/home/composables/data-requests.composable.ts:63-67 | the cadence after defaults, and no start time |
| Polling.Poller.RefetchInterval | frontend/src/modules/home/composables/data-requests.composable.ts:79-88 | the closure resets the start time when not PENDING, records it on the first active poll, and returns `Interval` |
| Polling.ReplayAppend | frontend/src/modules/home/composables/data-requests.composable.ts:79-88 | replaying two runs of polls equals replaying one after the other |
| Polling.ActiveRunKeepsStart | frontend/src/modules/home/composables/data-requests.composable.ts:85 | while the request stays PENDING the recorded start time is kept |
| Polling.ActiveRunStartsAtFirstPoll | frontend/src/modules/home/composables/data-requests.composable.ts:79-88 | after any other status, a run of PENDING polls measures from its first poll |
| Polling.StopResets | frontend/src/modules/home/composables/data-requests.composable.ts:81-84 | any status other than PENDING resets the start time |
| Polling.IntervalAfterActiveRun | frontend/src/modules/home/composables/data-requests.composable.ts:79-88 | after another status and a run of PENDING polls, the interval is slowMs exactly when more than slowAfterMs has passed since the run's first poll |
| Polling.IntervalOfFirstActivePoll | frontend/src/modules/home/composables/data-requests.composable.ts:79-88 | the first PENDING poll after another status measures from its own start time |
| PromptsModels.ToUiGraphSpec | frontend/src/modules/home/models/prompts.models.ts:42-52 | a spec exactly when there is a graph configuration, with its axes and the given type (LINEAR by default) |
| PromptsModels.TerminalIffPresent | frontend/src/modules/home/models/prompts.models.ts:55-58 | every present status is terminal, PENDING included; a missing one is not |
| DataRequestsModels.IsFinalStatus | frontend/src/modules/home/models/data-requests.models.ts:34-35 | a status is final exactly when it is not PENDING |

## Left out

- The database drivers, Prisma, encryption of stored configs, the prompt
  builders, `setTimeout` and mock delays, uuid generation, and concurrency
  between requests are not modelled. The database, the LLM and `fetch` are
  oracles passed as parameters.
- JSON parse and stringify, `Number()`, UTF-8 byte length, `Date.toISOString`
  and the re-parse of rows are uninterpreted functions supplied by the caller.
  The round-trip and masking lemmas hold for any such functions.
- Text is ASCII. Unicode case mapping and UTF-16 code-unit lengths are not
  modelled.
- An object's key order is insertion order. Integer-like keys, which JavaScript
  enumerates first, and prototype keys are not modelled.
- Floating point is not modelled. `Math.floor(n * 0.8)` is taken exactly on
  integers, and an invalid `Date` is not represented.
- `getOne`, `getAll` and `getLatest` of the data requests, `startIngestion`,
  and the ingestion status records are not part of this model.
- The `deleteMany` of the old snapshot is assumed to cascade to columns and
  foreign keys. Upserts into a freshly emptied workspace are modelled as
  creates.
- The private `isPostgresConfig` and `isMysqlConfig` checks of
  `data-requests.service.ts` (:354-376), which `execPostgres` and `execMysql`
  run on the stored config before connecting (:241, :272), are not part of
  this model: query execution is a parameter of the pipeline.
- The private `asPostgresConfigOrThrow` and `asMysqlConfigOrThrow` methods of
  `workspaces.service.ts` (:510-538) are not modelled. Nothing calls them;
  `ingestWorkspace` uses the util functions of the same names, which
  `WorkspacesUtil.AsConfigOrThrow` models.
- `getCurrentUser` in `auth.service.ts` is not modelled, because it only reads
  `currentUser`.
- Auth.AuthStore.Register takes one `now` value for both `createdAt` and
  `updatedAt`, where the source reads the clock twice
  (`auth.service.ts:131-132`). The two readings can differ by a millisecond.
- Polling.Poller.RefetchInterval does not model the `...opts` spread, which can
  override `refetchInterval` and `enabled`. A NaN workspace id is not
  modelled either.
- Polling.Poller.RefetchInterval takes the two `Date.now()` reads of one call
  as separate arguments.
- LlmClient.Completions does not model the `json_object` and `json_schema`
  response-format options beyond their type name.
- DataRequests.RequestStore.CreateAndExecute takes the LLM replies as
  `firstText` values of `completions` calls. The two modules are not composed.
- ResultProcessing.LimitRowsAndSize returns None where the source loops for
  ever, because a lone row over the byte budget never shrinks.
