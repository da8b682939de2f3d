# Analytics chat bot: planning and result gating

A model in Dafny of the core of a Slack bot that answers analytics questions
about an app portfolio. A message goes through these steps:

- It is matched against two text-to-action intents, "export as CSV" and
  "show the SQL".
- Otherwise it is planned by a cascade of strategies: the follow-up rewrite,
  the off-topic decline, the language model first (when configured), the rule
  table, the language model as a fallback, and a fixed generic plan.
- A declined plan is answered at once. Any other plan's SQL passes a textual
  gate and is executed.
- The resulting table loses the `ua_cost` column for users who are not
  admins. It is cached under the thread's key and the channel's `__last__`
  key, and is then rendered as a count sentence or a Markdown table.

Modules, one concept each:

- `Wrappers`: Option and Result.
- `Text`: Python's `strip`, `lower`, `split`, `join`, `str(int)`, `int(str)` and the
  whitespace class.
- `Json`: plan dictionaries.
- `Tables`: data frames as columns plus rows of cells.
- `Patterns`: the constant regular expressions as data, and what `re.search`
  answers for them.
- `Followup`: `_apply_followup`.
- `Agent`: `plan_query`, the rule and off-topic tables, and the tail of
  `_llm_plan`.
- `Runner`: `_sanitize` and `run_sql`.
- `Cache`: the `ThreadCache` class.
- `Authz`: `ADMINS`, `is_admin` and `filter_columns`.
- `Formatting`: `_fmt_cell` and `df_to_markdown_table`.
- `Handlers`: `_handle_query`, `_get_last_from_cache` and the button and
  `/export` handlers.

Stateful code is imperative Dafny proved against a specification function:

- `Cache.ThreadCache` is a class over a `map` field.
- `Handlers.HandleQuery` and its helper methods work on that cache.
- `Formatting.ToMarkdown` builds its lines by appending in loops.

Pure code is functions and lemmas. The request handler's methods are proved
equal to `Handlers.HandleQuerySpec` and its parts, so every property proved
about those functions holds for the handler.

The follow-up rewrite is modelled as the code is written:

- The swap pattern ends in `\b` right after a closing quote. It therefore
  swaps a filter only when a word character follows the quote.
- Every `re.sub` replaces all matches.
- The insertion pattern's `$` alternative always adds a clause at the end.

Two consequences for ordinary SQL follow from this:

- `... WHERE platform='iOS' LIMIT 10` followed by "what about android" does
  not swap the filter. The quote before ` LIMIT` is followed by a space, so
  the swap pattern does not match (`Followup.FilterBeforeSpaceNotSwapped`).
  The WHERE branch runs instead and adds ` platform='Android' AND ` right
  after every whole-word `WHERE`, keeping `platform='iOS'`
  (`Followup.WhereBranchInserts`).
- `... GROUP BY app_name` followed by "android only" gets the clause both
  before `GROUP BY` and at the end (`Followup.EveryKeywordGetsClause`,
  `Followup.InsertAllAppends`, `Followup.GroupByExample`).

## Model

| member | source | states |
|---|---|---|
| Cache.ThreadCache.constructor | app/services/cache.py:5-7 | the time-to-live is the argument and the store starts empty |
| Cache.ThreadCache.Set | app/services/cache.py:12-13 | the new store is the old one with the key `channel:thread_ts` mapped to the value stamped `now`, unconditionally |
| Cache.ThreadCache.Get | app/services/cache.py:15-23 | the answer and the new store are those of `Fetch`: a miss leaves the store alone, an expired entry is deleted and reported as None, a live one is returned |
| Cache.SetThenGet | app/services/cache.py:12-23 | after a write at time `at`, a read with `now - at <= ttl` (equality included) returns exactly the value written and changes nothing |
| Cache.SetThenGetExpired | app/services/cache.py:20-22 | after a write, a read with age greater than the TTL returns None and leaves a store without that key, the rest being the store before the write |
| Cache.ExpiredStaysGone | app/services/cache.py:20-22 | once a read has evicted an expired key, every later read of that key returns None and changes nothing |
| Cache.MissLeavesStore | app/services/cache.py:16-19 | a read of a missing key returns None and leaves the store unchanged |
| Cache.Overwrite | app/services/cache.py:12-13 | a second write to a key replaces the first write's value and timestamp |
| Cache.StoredKeepsOthers | app/services/cache.py:12-13 | a write leaves every other key's entry unchanged |
| Cache.FetchKeepsOthers | app/services/cache.py:15-23 | a read leaves every other key's entry unchanged |
| Cache.FetchShrinksOnlyOnMiss | app/services/cache.py:15-23 | a read never adds a key, and removes one only when it answers None |
| Cache.KeyInjective | app/services/cache.py:9-10 | for channels without a colon, equal keys mean equal channels and equal thread ids |
| Authz.Admins | app/services/authz.py:5 | the admin set is exactly the non-empty pieces of the comma split, untrimmed; the empty id is never in it |
| Authz.NoAdminsByDefault | app/services/authz.py:5-8 | with the variable unset nobody is an admin, and the empty user id is not an admin of a real list |
| Authz.AdminsOfList | app/services/authz.py:5-8 | for ids joined by commas, a user is an admin iff it is one of the non-empty ids |
| Authz.DropColumn | app/services/authz.py:14-15 | dropping a column keeps every row, yields a valid frame, and its columns are exactly the others |
| Authz.FilterColumns | app/services/authz.py:11-16 | admins get the table unchanged; for others `ua_cost` is gone and every other column stays; a table without `ua_cost` is unchanged; the row count is kept |
| Authz.KeptColumnsIntact | app/services/authz.py:14-15 | for a non-admin, the result's columns and every row's cells are the original ones at the kept positions, which are increasing and include every column other than `ua_cost` |
| Authz.FilterIdempotent | app/services/authz.py:11-16 | filtering twice equals filtering once |
| Runner.Sanitize | app/sql/runner.py:11-25 | "Empty SQL" exactly for a non-text or whitespace-only input; on success the input was text, and the output is stripped and holds none of `;`, `--`, `/*`, `*/` |
| Runner.RunSql | app/sql/runner.py:27-34 | the store receives exactly the sanitized statement, and only when the gate accepts; a rejection is reported with the gate's message |
| Runner.SanitizePrefix | app/sql/runner.py:14-17 | an accepted statement is the stripped input itself, or the stripped input less its final `;` and the whitespace before it |
| Runner.InnerSemicolonRejected | app/sql/runner.py:16-21 | a `;` anywhere but at the very end of the stripped input makes the gate answer "Unsafe SQL detected" |
| Runner.SanitizeIdempotent | app/sql/runner.py:11-25 | sanitizing a non-empty accepted statement again gives it back unchanged |
| Runner.LoneSemicolonAccepted | app/sql/runner.py:12-17 | the emptiness test runs before the `;` is dropped, so `;` is accepted as the empty statement |
| Runner.TrailingSemicolonDropped | app/sql/runner.py:16-17 | a safe stripped statement followed by one `;` is accepted as that statement |
| Runner.CommentMarkerRejected | app/sql/runner.py:20-21 | a `--`, `/*` or `*/` anywhere in the input makes the gate answer "Unsafe SQL detected" |
| Runner.SelectOneAccepted | app/sql/runner.py:16-17 | `SELECT 1;` becomes `SELECT 1` (an instance of TrailingSemicolonDropped) |
| Runner.SemicolonBetween | app/sql/runner.py:20-21 | two statements joined by a `;` are rejected as unsafe |
| Runner.StackedStatementRejected | app/sql/runner.py:20-21 | `SELECT 1; DROP TABLE app_metrics` is rejected as unsafe (an instance of SemicolonBetween) |
| Runner.DoubledSemicolonRejected | app/sql/runner.py:20-21 | `SELECT 1;;` is rejected as unsafe (an instance of SemicolonBetween) |
| Formatting.GroupedDigits | app/services/formatting.py:8-9 | removing the thousands separators from the grouped form of n gives `str(n)` |
| Formatting.GroupedShape | app/services/formatting.py:8-9 | the grouped form is digits and commas: a first group of one to three digits, and every comma followed by exactly three digits and then the end or another comma; it has a comma iff n >= 1000 |
| Formatting.FmtCellOneLine | app/services/formatting.py:3-16 | a rendered bool, int or None cell never contains a newline, and a text cell only if its text does |
| Formatting.Head | app/services/formatting.py:19 | `df.head(n)` is a prefix of the rows: the first min(n, len) rows, or all but the last -n for negative n |
| Formatting.RowCells | app/services/formatting.py:25-27 | one formatted cell per column of the row, in column order |
| Formatting.RowLines | app/services/formatting.py:24-28 | one bar-delimited line per shown row, in row order |
| Formatting.FormatRow | app/services/formatting.py:25-27 | the inner `append` loop builds exactly the row's formatted cells |
| Formatting.FormatRows | app/services/formatting.py:24-28 | the outer loop builds exactly one line per shown row, in order |
| Formatting.ToMarkdown | app/services/formatting.py:18-31 | the method's output is the newline join of the header, the rule line, the row lines and the trailer |
| Formatting.LineCount | app/services/formatting.py:21-31 | the rendering has 2 + min(n, max_rows) lines, plus one when n > max_rows |
| Formatting.HeaderLines | app/services/formatting.py:20-23 | line 1 is the column names in order, separated and framed by bars; line 2 is framed the same way with one `---` per column |
| Formatting.DataLine | app/services/formatting.py:24-28 | data line 2+i renders row i, with one formatted cell per column, in order |
| Formatting.TrailerLine | app/services/formatting.py:29-30 | the last line is the trailer with k = n - max_rows exactly when n > max_rows, and there is no trailer otherwise |
| Formatting.LinesOneLine | app/services/formatting.py:21-31 | with no newline in column names or text cells, no line contains a newline |
| Formatting.SplitIntoLines | app/services/formatting.py:31 | under the same condition, splitting the output on newlines gives back exactly the lines |
| Followup.FirstMention | app/nlp/agent.py:100 | the first index at which `ios` or `android` occurs in any case, with no word boundary; None when there is none |
| Followup.ApplyFollowup | app/nlp/agent.py:99-103 | the rewrite is None iff the text has no case-insensitive `ios`/`android` substring; otherwise it is never empty |
| Followup.DropOnStripped | app/nlp/agent.py:106-107 | on stripped SQL the `;\s*$` substitution removes exactly one final `;` |
| Followup.SwapNeedsWordAfterQuote | app/nlp/agent.py:110 | a swap match ends just after a closing quote that is followed by a word character |
| Followup.FilterBeforeSpaceNotSwapped | app/nlp/agent.py:110 | if no quote in the SQL is followed by a word character, the swap branch is not taken |
| Followup.WhereAllLength | app/nlp/agent.py:120-127 | the WHERE substitution grows the text by the condition's length once per `\bwhere\b` match |
| Followup.WhereAllWeaves | app/nlp/agent.py:121-127 | the WHERE substitution is the input with one copy of the condition put at each position in `WhereSites`, in order, and nothing else changed |
| Followup.WhereSitesFollowWhere | app/nlp/agent.py:121-127 | every position the condition goes to comes right after a whole-word `where`, in any case |
| Followup.EveryWhereGetsCondition | app/nlp/agent.py:121-127 | every whole-word `where` in the SQL, in any case, is followed by a copy of the condition |
| Followup.WhereBranchInserts | app/nlp/agent.py:120-127 | when no swap matches and a `where` exists, the rewrite is the SQL with ` platform='P' AND ` put right after every whole-word `where` and nowhere else, at least once |
| Followup.WhereExample | app/nlp/agent.py:121-127 | `t where a` becomes `t whereX a` with condition `X` |
| Followup.InsertAllAppends | app/nlp/agent.py:128-135 | the insertion branch's result always ends with ` WHERE platform='P' `, because `$` always matches at the end |
| Followup.InsertAllWeaves | app/nlp/agent.py:128-135 | the insertion substitution is the input with one copy of the clause put in front of each position in `InsertSites`, in order, and nothing else changed |
| Followup.WeaveNothing | app/nlp/agent.py:128-135 | taking the inserted copies out again gives back the input |
| Followup.SitesAreMatches | app/nlp/agent.py:128-135 | every position the clause is put in front of starts a `group by`, `order by` or `limit` match, or is a place where `$` matches |
| Followup.EveryKeywordGetsClause | app/nlp/agent.py:128-135 | every `group by`, `order by` and `limit` in the SQL, in any case, gets a copy of the clause right in front of it |
| Followup.GroupByExample | app/nlp/agent.py:128-135 | `group by a` becomes `Xgroup by aX` with clause `X`: before the keyword and again at the end |
| Followup.SwapAllReplaces | app/nlp/agent.py:110-118 | the swap substitution is the input with each span in `SwapSpans` replaced by `platform='P'`, and the text between spans kept |
| Followup.SpansAreMatches | app/nlp/agent.py:110-118 | every replaced span is a match of the swap pattern |
| Followup.EverySwapMatchReplaced | app/nlp/agent.py:110-118 | every match of the swap pattern in the SQL is one of the replaced spans |
| Followup.RewriteNamesPlatform | app/nlp/agent.py:109-136 | whichever of the three branches runs, the result contains `platform='P'` |
| Followup.FollowupNamesPlatform | app/nlp/agent.py:99-136 | whenever a rewrite is returned, the named platform is the first mention's, and the SQL filters on it |
| Agent.FirstRuleFrom | app/nlp/agent.py:175-178 | the answer is the first rule, in list order, whose pattern finds a match, and None when no rule does |
| Agent.ExtractJson | app/nlp/agent.py:85-87 | when the extracted text holds both braces, it opens with `{` and closes with `}` |
| Agent.BraceSlice | app/nlp/agent.py:86-87 | without both braces the text is kept; with the first `{` at or before the last `}`, the result is the text from that `{` through that `}`; with the last `}` before the first `{`, the result is empty |
| Agent.ReversedBracesEmpty | app/nlp/agent.py:85-87 | the reply `}{` is extracted as the empty text |
| Agent.BraceSliceOf | app/nlp/agent.py:86-87 | for an object with no `{` before it and no `}` after it, the slice is exactly that object |
| Agent.TrimAround | app/nlp/agent.py:85 | stripping whitespace and then backticks removes text only from outside a `{...}` object |
| Agent.ExtractsObject | app/nlp/agent.py:85-88 | however a reply is fenced or padded, such an object is exactly what is handed to `json.loads` |
| Agent.WithDefaults | app/nlp/agent.py:93-96 | the four fields are added only where missing, with defaults "", "table", "", ""; every existing key keeps its value |
| Agent.LlmPlan | app/nlp/agent.py:85-97 | a successful model plan always has the four plan fields |
| Agent.LlmPlanComplete | app/nlp/agent.py:88-97 | success means the model replied, the decoder gave a dict, and every key of that dict is kept |
| Agent.FollowupPlan | app/nlp/agent.py:143-148 | the follow-up plan has exactly the four fields, the rewritten SQL, and `last_plan`'s answer type defaulting to "table" |
| Agent.PlanQuery | app/nlp/agent.py:138-194 | a plan is always returned: the off-topic plan when declined as off-topic, a complete plan otherwise; at most two model calls, none without `USE_OPENAI`, two only in model-first mode |
| Agent.AfterFollowup | app/nlp/agent.py:150-194 | the stages after the follow-up pass never report the follow-up strategy, and keep PlanQuery's shape and call bounds |
| Agent.OnTopic | app/nlp/agent.py:167-194 | on-topic text gets a complete plan from the model-first stage, the rules, the fallback or the generic plan |
| Agent.AfterRules | app/nlp/agent.py:174-194 | a matched rule's plan is returned unchanged with no further model call; otherwise at most one more call, then the fallback or the generic plan |
| Agent.RulePlansComplete | app/nlp/agent.py:14-53 | every rule template carries the four plan fields |
| Agent.OffTopicPlanShape | app/nlp/agent.py:153-165 | the off-topic plan has no "sql", answer type "decline", its decline text, an explanation and assumptions |
| Agent.PlanShape | app/nlp/agent.py:138-194 | every plan has an answer type, an explanation and assumptions; "sql" is missing iff the message was declined as off-topic, which is then a decline with a text |
| Agent.HelpMatchesIff | app/nlp/agent.py:15 | the help pattern matches iff the message is `help`, in any case, between whitespace only |
| Agent.OffTopicWordIff | app/nlp/agent.py:11 | the third off-topic pattern matches iff joke, weather, time, date or news stands as a word anywhere in the text |
| Agent.FollowupComesFirst | app/nlp/agent.py:140-148 | a non-empty previous plan and a named platform commit the follow-up plan, before off-topic, model or rules, with no model call |
| Agent.FollowupFiltersPlatform | app/nlp/agent.py:140-148 | that plan's SQL contains `platform='P'` for the platform the text names |
| Agent.FollowupNeedsPlatform | app/nlp/agent.py:140-142 | without a non-empty previous plan or a platform name, the follow-up strategy never commits |
| Agent.SkipsFollowup | app/nlp/agent.py:140-148 | in that case the cascade is its later stages |
| Agent.ReachesRules | app/nlp/agent.py:150-178 | for on-topic text without a usable model-first reply, the cascade reaches the rule table |
| Agent.FirstRuleIs | app/nlp/agent.py:175-178 | a rule that matches while no earlier one does is the one chosen |
| Agent.OffTopicDeclines | app/nlp/agent.py:151-165 | off-topic text is declined with the off-topic plan, no model call is made, and the result does not depend on the model |
| Agent.LlmFirstWins | app/nlp/agent.py:168-170 | in model-first mode a usable first reply wins over every rule, after one call |
| Agent.FirstRuleWins | app/nlp/agent.py:174-178 | otherwise the first matching rule's plan is returned unchanged, after the failed model-first call if there was one |
| Agent.HelpDeclines | app/nlp/agent.py:15-25 | with no follow-up and no usable model-first reply, a bare `help` yields rule 0, a decline with empty SQL and the help text, in every configuration |
| Agent.HelpPlanShape | app/nlp/agent.py:15-25 | the help template has empty SQL, answer type "decline" and the help text |
| Agent.GenericWithoutModel | app/nlp/agent.py:181-194 | without `USE_OPENAI` and with no follow-up, off-topic or rule match, the result is the fixed generic plan, whose answer type is "table" |
| Agent.ModelAfterRules | app/nlp/agent.py:181-194 | with `USE_OPENAI` and no rule match the model is asked once more; a usable reply is returned, and a failed one ends in the generic plan |
| Handlers.ThreadLookup | app/handlers.py:150 | without a (truthy) thread id nothing is read and the cache is untouched |
| Handlers.LastFromCache | app/handlers.py:209-213 | the consistency of the cache is kept by the lookup with fallback |
| Handlers.NoThreadReadsLast | app/handlers.py:209-213 | without a thread id only the channel's `__last__` entry is read |
| Handlers.ThreadHitWins | app/handlers.py:209-213 | a live thread entry is returned and `__last__` is not consulted |
| Handlers.LastIsFallback | app/handlers.py:209-213 | a live `__last__` entry always gives a result, whatever the thread's entry is |
| Handlers.GetLastFromCache | app/handlers.py:209-213 | the method's answer and cache are those of LastFromCache on the old cache |
| Handlers.ThreadEntry | app/handlers.py:150 | the method's answer and cache are those of ThreadLookup on the old cache |
| Handlers.PlanningContext | app/handlers.py:150-151 | the context is the thread entry's plan only, and a cached plan's SQL is always text |
| Handlers.NoThreadNoContext | app/handlers.py:150-151 | with no thread id there is no planning context, and the cache is untouched |
| Handlers.ContextIgnoresLast | app/handlers.py:150-151 | whatever `__last__` holds, the planning context is the same |
| Handlers.KeySameChannel | app/services/cache.py:9-10 | two keys of one channel are equal iff their thread parts are |
| Handlers.HandleQuerySpec | app/handlers.py:115-207 | every request keeps the cache invariant that each cached plan's "sql" is the cached SQL |
| Handlers.HandleQuery | app/handlers.py:115-207 | the handler's reply and the cache afterwards are those of HandleQuerySpec on the cache before, and the invariant is kept |
| Handlers.IntentsComeFirst | app/handlers.py:119-148 | an export or show-SQL request is answered from LastFromCache before any planning; export wins over show-SQL, and neither model, database nor user matters |
| Handlers.ExportReply | app/handlers.py:125-132 | an upload of the cached frame exactly when the cache gave a value; the store is what the lookup left |
| Handlers.SqlReply | app/handlers.py:142-148 | the cached SQL in a code block when the cache gave a value, otherwise the no-SQL message; the store is what the lookup left |
| Handlers.SqlBlock | app/handlers.py:147 | split on newlines, the reply is a "```" line, the lines of the SQL, and a closing "```" line |
| Handlers.ExportCommand | app/handlers.py:78-100 | the `/export` command and the export button are ExportReply on the thread lookup only |
| Handlers.ShowSqlCommand | app/handlers.py:102-111 | the show-SQL button is SqlReply on the thread lookup only |
| Handlers.ButtonsNeedThread | app/handlers.py:83-111 | without a thread id the buttons and `/export` answer that there is nothing, and change nothing |
| Handlers.ButtonIgnoresLast | app/handlers.py:90-100 | with no thread entry and a live `__last__`, the button finds nothing while the typed export uploads the `__last__` frame |
| Handlers.Answer | app/handlers.py:150-207 | planning and answering keep the cache invariant |
| Handlers.AnswerQuery | app/handlers.py:150-207 | the method's reply and cache are those of Answer on the old cache |
| Handlers.Respond | app/handlers.py:153-207 | answering a plan keeps the cache invariant (its decline and execute cases are stated by DeclineSkipsRun and Execute's lemmas) |
| Handlers.DeclineSkipsRun | app/handlers.py:153-164 | a declined plan gets its decline text and no cache write, whatever the database would do |
| Handlers.OffTopicReply | app/handlers.py:150-164 | with plan_query as the planner, small talk naming no platform is answered with the off-topic text and nothing is run or cached |
| Handlers.WiredOffTopic | app/handlers.py:151 | the wired planner gives the off-topic plan for that text |
| Handlers.OffTopicMessage | app/handlers.py:153-156 | the off-topic plan is a decline whose message is its own text |
| Handlers.Execute | app/handlers.py:165-207 | running, filtering, caching and replying keep the cache invariant |
| Handlers.ExecutePlan | app/handlers.py:165-207 | the method's reply and cache are those of Execute on the old cache, with its two `cache.set` calls |
| Handlers.UnsafeSqlNeverRuns | app/handlers.py:165-169 | SQL the gate rejects is reported with the gate's message; the database is never consulted and nothing is cached |
| Handlers.RunErrorNoWrite | app/handlers.py:165-169 | a failed run is reported as "Sorry, I couldn't run that query: " plus the error, and the cache is unchanged |
| Handlers.MissingSqlReported | app/handlers.py:165-169 | a plan without "sql" is reported with the KeyError text `'sql'`, and nothing is cached |
| Handlers.WiredPlansHaveSql | app/handlers.py:151-166 | with plan_query as the planner, every plan that is not declined has "sql" |
| Handlers.Shown | app/handlers.py:172 | the frame cached and shown to a non-admin has no `ua_cost` column |
| Handlers.SuccessWritesBoth | app/handlers.py:171-176 | on success the same value `{plan, df, sql: plan["sql"]}`, stamped `now`, is under both the thread key and the `__last__` key, and no other entry changes |
| Handlers.WriteBothShape | app/handlers.py:175-176 | the two writes add exactly those two keys, with that entry, and keep every other entry |
| Handlers.LastAfterWrite | app/handlers.py:175-176 | within the TTL of the two writes, `_get_last_from_cache` returns the value written |
| Handlers.CountReplyIff | app/handlers.py:178-207 | on success the table reply is given iff the plan is not "simple", there is no `app_count` column or there is not exactly one row; it carries the explanation, the assumptions and the Markdown table |
| Handlers.CountReplyText | app/handlers.py:178-181 | with exactly one `app_count` column, the count reply prints the count `int()` reads from the single row's cell |
| Handlers.DuplicateCountNoReply | app/handlers.py:178-179 | with two `app_count` columns, `df.iloc[0]["app_count"]` is a Series on which `int()` raises, so no reply is sent |
| Handlers.CountOfCells | app/handlers.py:179 | `int()` of the cell: an integer as it is, the decimal text of an integer with whitespace around it as that integer, None as a failure |
| Text.ParseIntRoundTrip | app/handlers.py:179 | `int()` on text reads back what `str()` wrote for any integer, whatever whitespace surrounds it |
| Text.ParseIntRejects | app/handlers.py:179 | `int()` on text fails when it holds a character other than whitespace, a digit, `_`, `+` or `-` |
| Handlers.ExportAfterRun | app/handlers.py:119-132 | after a successful query, a typed export in the same thread within the TTL uploads that filtered result |
| Handlers.ShowSqlAfterRun | app/handlers.py:134-148 | after a successful query, a typed show-SQL in the same thread within the TTL shows that plan's SQL |

## Left out

- The language model call, prompt assembly and `json.loads` are the `Remote` parameter. `ask(k)` answers the k-th call of a request, and `loads` answers None for malformed JSON.
- Database execution in `run_sql` (SQLite and pandas) is the `execute` parameter of the request environment.
- The handler's planner is a field of that environment. `Handlers.Wired` states that it is `plan_query` on every input `plan_query` accepts. Lemmas about the planner's output (`Handlers.OffTopicReply`, `Handlers.WiredPlansHaveSql`) assume it.
- Agent.PlanQuery: requires that a previous plan which would be rewritten holds text (or a falsy value) under "sql". On any other value, `(last_sql or "").strip()` raises and the request fails with no reply. That failure is not modelled. Plans from the cache always hold text, as `Handlers.PlanningContext` shows.
- Floating-point cells and the float branches of `_fmt_cell` (`:.2f` and percentages) are left out. A cell is a bool, an int, text or None.
- Case folding and the `\w` class are ASCII only.
- Slack event and command wiring is left out. So are mention stripping, the `/bi` help command, message blocks and buttons, `say`, and the CSV file write and upload. A reply is a `Reply` value, and an upload carries the frame it would write.
- The module-level cache is shared between requests without a lock. Only single-threaded use is modelled.
- `time.time()` is an integer `now`, read once per request.
- `int()` on an `app_count` cell that it cannot read (None, text that is not an integer literal, or the Series that two `app_count` columns give) raises after the cache writes. The model gives `NoReply` and keeps those writes. Text is read as `int()` reads it: surrounding whitespace, an optional sign, ASCII digits with single underscores between them; non-ASCII digits are left out.
- Cells are the values after pandas' type inference. An integer column holding a NULL arrives as a float column (rendered as "5.00" and "nan"), so it is left out with the other floats; the model's `IntCell` and `NullCell` stand for values in columns pandas keeps as integers or objects.
- `setdefault` changes `data` in place. It is modelled on values, as the dictionary after each call.
- Runner.SanitizeIdempotent: holds only for a non-empty result. `_sanitize(";")` is "", and sanitizing "" raises "Empty SQL".
- The unused `BLOCKED` regex and `ALLOWED_TABLES` in the runner are not modelled. Neither are the configuration flags `ENABLE_FOLLOWUP_LOGIC` and `ENABLE_RULE_FALLBACK`: none of them affects behaviour.
- Logging and tracing are left out.
