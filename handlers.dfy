/**
 * The request flow of the bot: text-to-action intents (export, show SQL),
 * then planning, the decline short-cut, execution, column filtering, the two
 * cache writes and the choice between a count reply and a table reply. Slack
 * replies are values of `Reply`; the shared cache is a `ThreadCache`.
 */
module Handlers {
  import opened Wrappers
  import opened Text
  import opened Json
  import opened Tables
  import opened Patterns
  import opened Followup
  import opened Agent
  import opened Runner
  import opened Cache
  import opened Authz
  import opened Formatting

  /** What a successful query caches: `{"plan": plan, "df": df, "sql": plan["sql"]}`. */
  datatype CacheValue = CacheValue(plan: Dict, df: Frame, sql: string)

  /** What the bot posts back into the thread. */
  datatype Reply =
    | Say(text: string)                                     // a plain message
    | Decline(message: Value)                               // the decline text (or the default one)
    | Upload(df: Frame)                                     // the CSV upload of a cached result
    | ShowResult(summary: Value, assumptions: Value, table: string)  // explanation, assumptions, Markdown table
    | NoReply                                               // an exception escaped the handler

  /**
   * Everything outside the cache the flow depends on: the planner's
   * configuration and model, the planner itself, the database and the admin
   * list. `Wired` says that `plan` is `plan_query` for `cfg` and `remote`.
   */
  datatype Env = Env(cfg: Config, remote: Remote, plan: (string, Option<Dict>) -> Outcome,
                     execute: string -> Result<Frame, string>, admins: set<string>)

  /** The handler's planner is `plan_query` itself, on every input `plan_query` accepts. */
  ghost predicate Wired(env: Env) {
    forall text, lastPlan :: Plannable(text, lastPlan) ==> env.plan(text, lastPlan) == PlanQuery(text, lastPlan, env.cfg, env.remote)
  }

  /** The outcome of one request: the reply and the cache contents afterwards. */
  datatype Handled = Handled(reply: Reply, store: Store<CacheValue>)

  const NoExportText: string := "No recent result to " + "export in this thread."
  const NoSqlText: string := "No SQL cached in this " + "thread."
  const DefaultDecline: string :=
    "I\U{2019}m focused on " + "analytics for the " + "Rounds app portfolio. "
      + "Ask me about apps, " + "installs, revenue, UA, " + "countries, or " + "platforms."
  const LastKey: string := "__last__"
  const RunFailedText: string := "Sorry, I couldn't " + "run that query: "

  /** `\ba\b.*\bb\b`. */
  function WordPair(a: string, b: string): seq<Elem> {
    [Boundary, Lit(a), Boundary, AnyRun, Boundary, Lit(b), Boundary]
  }

  /** `EXPORT_PATTERNS`, case-sensitive, applied to the lowered text. */
  const ExportPatterns: seq<Pattern> := [
    Pattern([WordPair("export", "csv"), WordPair("download", "csv"), WordPair("save", "csv"), WordPair("dump", "csv")], false),
    Pattern([[Start, Lit("export"), Spaces(true), Lit("csv"), End]], false),
    Pattern([[Start, Lit("export"), Spaces(true), Lit("this"), Spaces(true), Lit("as"), Spaces(true), Lit("csv"), End]], false),
    Pattern([[Start, Lit("download"), Spaces(true), Lit("csv"), End]], false)
  ]

  /** `SHOW_SQL_PATTERNS`, case-sensitive, applied to the lowered text. */
  const ShowSqlPatterns: seq<Pattern> := [
    Pattern([WordPair("show", "sql"), WordPair("display", "sql"), WordPair("print", "sql"),
             WordPair("reveal", "sql"), WordPair("view", "sql"), WordPair("see", "sql")], false),
    Pattern([WordPair("sql", "used"), WordPair("sql", "query"), WordPair("sql", "statement")], false),
    Pattern([[Start, Lit("sql"), End]], false),
    Pattern([[Start, Lit("show"), Spaces(true), Lit("sql"), End]], false),
    Pattern([[Start, Lit("show"), Spaces(true), Lit("the"), Spaces(true), Lit("sql"), End]], false)
  ]

  /** `(text or "").strip().lower()`. */
  function Normalize(text: string): string {
    LowerStr(Strip(text))
  }

  predicate IsExport(text: string) {
    SearchAny(ExportPatterns, Normalize(text))
  }

  predicate IsShowSql(text: string) {
    SearchAny(ShowSqlPatterns, Normalize(text))
  }

  /** `if thread_ts`: present and not empty. */
  predicate HasThread(threadTs: Option<string>) {
    threadTs.Some? && threadTs.value != ""
  }

  /** The thread id as the f-string in `ThreadCache.key` prints it. */
  function TsText(threadTs: Option<string>): string {
    if threadTs.Some? then threadTs.value else "None"
  }

  /** `cache.get(channel, thread_ts) if thread_ts else None`. */
  function ThreadLookup(store: Store<CacheValue>, ttl: int, channel: string, threadTs: Option<string>, now: int)
    : (r: Lookup<CacheValue>)
    ensures !HasThread(threadTs) ==> r == Lookup(None, store)
    ensures CacheInv(store) ==> CacheInv(r.store) && (r.value.Some? ==> Consistent(r.value.value))
  {
    if HasThread(threadTs) then Fetch(store, ttl, now, Key(channel, threadTs.value)) else Lookup(None, store)
  }

  /** `_get_last_from_cache`: the thread's entry, or the channel-wide `__last__` entry when that misses. */
  function LastFromCache(store: Store<CacheValue>, ttl: int, channel: string, threadTs: Option<string>, now: int)
    : (r: Lookup<CacheValue>)
    ensures CacheInv(store) ==> CacheInv(r.store)
  {
    var first := ThreadLookup(store, ttl, channel, threadTs, now);
    if first.value.Some? then first else Fetch(first.store, ttl, now, Key(channel, LastKey))
  }

  /** Every cached plan's "sql" is the text cached beside it. */
  predicate CacheInv(store: Store<CacheValue>) {
    forall k :: k in store ==> Consistent(store[k].value)
  }

  /** A cached value's plan carries the cached SQL text as its "sql". */
  predicate Consistent(v: CacheValue) {
    "sql" in v.plan && v.plan["sql"] == JStr(v.sql)
  }

  /** `plan.get("answer_type") == want`. */
  predicate AnswerTypeIs(plan: Dict, want: string) {
    "answer_type" in plan && plan["answer_type"] == JStr(want)
  }

  /** `plan.get("decline_text") or <default>`. */
  function DeclineMessage(plan: Dict): Value {
    if "decline_text" in plan && Truthy(plan["decline_text"]) then plan["decline_text"] else JStr(DefaultDecline)
  }

  /** The position of the first column called `name`. */
  function ColumnIndex(cols: seq<string>, name: string): (i: nat)
    requires name in cols
    ensures i < |cols| && cols[i] == name && name !in cols[..i]
  {
    if cols[0] == name then 0
    else
      var j := ColumnIndex(cols[1..], name);
      assert cols[..j + 1] == [cols[0]] + cols[1..][..j];
      j + 1
  }

  /** `int(cell)`: integers as they are, booleans as 0 and 1, text as `int()` reads it; None raises. */
  function CountOf(c: Cell): Option<int> {
    match c
    case IntCell(i) => Some(i)
    case BoolCell(b) => Some(if b then 1 else 0)
    case TextCell(s) => ParseInt(s)
    case NullCell => None
  }

  /** The count reply applies: a "simple" plan, an `app_count` column and exactly one row. */
  predicate CountShape(plan: Dict, df: Frame) {
    AnswerTypeIs(plan, "simple") && "app_count" in df.columns && |df.rows| == 1
  }

  /**
   * `int(df.iloc[0]["app_count"])` and the count sentence. With a second
   * `app_count` column the lookup gives a Series, on which `int()` raises.
   */
  function CountReply(df: Frame): Reply
    requires "app_count" in df.columns && |df.rows| == 1
  {
    assert df.rows[0] in df.rows;
    var i := ColumnIndex(df.columns, "app_count");
    if "app_count" in df.columns[i + 1..] then NoReply
    else
      match CountOf(df.rows[0][i])
      case Some(n) => Say("We currently track *" + IntToString(n) + "* apps.")
      case None => NoReply
  }

  function TableReply(plan: Dict, df: Frame): Reply {
    ShowResult(GetOr(plan, "explanation", JStr("")), GetOr(plan, "assumptions", JStr("")), MarkdownTable(df, 10))
  }

  /** The value both cache writes store after a successful run. */
  function Cached(plan: Dict, df: Frame): CacheValue
    requires "sql" in plan && plan["sql"].JStr?
  {
    CacheValue(plan, df, plan["sql"].s)
  }

  /**
   * Lines 165-207 of the handler: run the plan's SQL, filter, cache twice,
   * reply. A plan without "sql" fails the lookup inside the `try`, and the
   * `KeyError` prints as `'sql'`.
   */
  function Execute(store: Store<CacheValue>, env: Env, channel: string, threadTs: Option<string>,
                   userId: string, plan: Dict, now: int): (h: Handled)
    requires CacheInv(store)
    ensures CacheInv(h.store)
  {
    if "sql" !in plan then Handled(Say(RunFailedText + "'sql'"), store)
    else match RunSql(plan["sql"], env.execute)
    case Failure(e) => Handled(Say(RunFailedText + e), store)
    case Success(df) =>
      var shown: Frame := FilterColumns(env.admins, userId, df);
      Handled(ResultReply(plan, shown), WriteBoth(store, channel, threadTs, Cached(plan, shown), now))
  }

  /** Line 178: the count reply or the table reply. */
  function ResultReply(plan: Dict, df: Frame): Reply {
    if CountShape(plan, df) then CountReply(df) else TableReply(plan, df)
  }

  /** The two `cache.set` calls of lines 175-176. */
  function WriteBoth(store: Store<CacheValue>, channel: string, threadTs: Option<string>, v: CacheValue, now: int)
    : Store<CacheValue>
  {
    Stored(Stored(store, Key(channel, TsText(threadTs)), v, now), Key(channel, LastKey), v, now)
  }

  /** The planning context: the thread's cached plan only, never the `__last__` entry. */
  function PlanningContext(store: Store<CacheValue>, ttl: int, channel: string, threadTs: Option<string>, now: int)
    : (r: (Option<Dict>, Store<CacheValue>))
    requires CacheInv(store)
    ensures CacheInv(r.1) && (r.0.Some? ==> SqlIsText(r.0.value))
  {
    var ctx := ThreadLookup(store, ttl, channel, threadTs, now);
    (if ctx.value.Some? then Some(ctx.value.value.plan) else None, ctx.store)
  }

  /** Lines 150-207: plan with the thread's context, decline without running, otherwise execute. */
  function Answer(store: Store<CacheValue>, ttl: int, env: Env, channel: string, threadTs: Option<string>,
                  userId: string, text: string, now: int): (h: Handled)
    requires CacheInv(store)
    ensures CacheInv(h.store)
  {
    var (lastPlan, s) := PlanningContext(store, ttl, channel, threadTs, now);
    Respond(s, env, channel, threadTs, userId, env.plan(text, lastPlan).plan, now)
  }

  /** Lines 153-207: a declined plan is answered with its text at once, any other plan is executed. */
  function Respond(store: Store<CacheValue>, env: Env, channel: string, threadTs: Option<string>,
                   userId: string, plan: Dict, now: int): (h: Handled)
    requires CacheInv(store)
    ensures CacheInv(h.store)
  {
    if AnswerTypeIs(plan, "decline") then Handled(Decline(DeclineMessage(plan)), store)
    else Execute(store, env, channel, threadTs, userId, plan, now)
  }

  /** `_handle_query`: export intent, then show-SQL intent, then answering. */
  function HandleQuerySpec(store: Store<CacheValue>, ttl: int, env: Env, channel: string, threadTs: Option<string>,
                           userId: string, text: string, now: int): (h: Handled)
    requires CacheInv(store)
    ensures CacheInv(h.store)
  {
    if IsExport(text) then ExportReply(LastFromCache(store, ttl, channel, threadTs, now))
    else if IsShowSql(text) then SqlReply(LastFromCache(store, ttl, channel, threadTs, now))
    else Answer(store, ttl, env, channel, threadTs, userId, text, now)
  }

  /** What an export request does with what the cache gave: upload its frame, or say there is none. */
  function ExportReply(last: Lookup<CacheValue>): (h: Handled)
    ensures h.store == last.store
    ensures h.reply.Upload? <==> last.value.Some?
    ensures last.value.Some? ==> h.reply.df == last.value.value.df
  {
    Handled(if last.value.Some? then Upload(last.value.value.df) else Say(NoExportText), last.store)
  }

  /** What a show-SQL request does with what the cache gave: its SQL in a code block, or say there is none. */
  function SqlReply(last: Lookup<CacheValue>): (h: Handled)
    ensures h.store == last.store
    ensures last.value.Some? ==> h.reply == Say(SqlBlock(last.value.value.sql))
    ensures last.value.None? ==> h.reply == Say(NoSqlText)
  {
    Handled(if last.value.Some? then Say(SqlBlock(last.value.value.sql)) else Say(NoSqlText), last.store)
  }

  /** The `/export` command and the "Export CSV" button: the thread's entry only. */
  function ExportButton(store: Store<CacheValue>, ttl: int, channel: string, threadTs: Option<string>, now: int)
    : (h: Handled)
  {
    ExportReply(ThreadLookup(store, ttl, channel, threadTs, now))
  }

  /** The "Show SQL" button: the thread's entry only. */
  function ShowSqlButton(store: Store<CacheValue>, ttl: int, channel: string, threadTs: Option<string>, now: int)
    : (h: Handled)
  {
    SqlReply(ThreadLookup(store, ttl, channel, threadTs, now))
  }

  /** The f-string of line 147: a fence line, the lines of the SQL, and a closing fence line. */
  function SqlBlock(sql: string): (r: string)
    ensures SplitOn(r, '\n') == ["```"] + SplitOn(sql, '\n') + ["```"]
  {
    FencedLines(sql);
    "```\n" + sql + "\n```"
  }

  lemma FencedLines(sql: string)
    ensures SplitOn("```\n" + sql + "\n```", '\n') == ["```"] + SplitOn(sql, '\n') + ["```"]
  {
    var lines := SplitOn(sql, '\n');
    var parts := ["```"] + lines + ["```"];
    JoinSnoc("\n", lines, "```");
    assert parts[1..] == lines + ["```"];
    assert Join("\n", parts) == "```" + "\n" + (sql + "\n" + "```");
    assert "```\n" + sql + "\n```" == Join("\n", parts);
    SplitJoin(parts, '\n');
  }

  /** `cache.get(channel, thread_ts) if thread_ts else None`, on the shared cache. */
  method ThreadEntry(cache: ThreadCache<CacheValue>, channel: string, threadTs: Option<string>, now: int)
    returns (last: Option<CacheValue>)
    modifies cache
    ensures Lookup(last, cache.store) == ThreadLookup(old(cache.store), cache.ttl, channel, threadTs, now)
  {
    last := None;
    if HasThread(threadTs) {
      last := cache.Get(channel, threadTs.value, now);
    }
  }

  /** `_get_last_from_cache`. */
  method GetLastFromCache(cache: ThreadCache<CacheValue>, channel: string, threadTs: Option<string>, now: int)
    returns (last: Option<CacheValue>)
    modifies cache
    ensures Lookup(last, cache.store) == LastFromCache(old(cache.store), cache.ttl, channel, threadTs, now)
  {
    last := ThreadEntry(cache, channel, threadTs, now);
    if last.None? {
      last := cache.Get(channel, LastKey, now);
    }
  }

  /** The `/export` command and the "Export CSV" button handler. */
  method ExportCommand(cache: ThreadCache<CacheValue>, channel: string, threadTs: Option<string>, now: int)
    returns (reply: Reply)
    modifies cache
    ensures Handled(reply, cache.store) == ExportButton(old(cache.store), cache.ttl, channel, threadTs, now)
  {
    var last := ThreadEntry(cache, channel, threadTs, now);
    if last.None? {
      reply := Say(NoExportText);
    } else {
      reply := Upload(last.value.df);
    }
  }

  /** The "Show SQL" button handler. */
  method ShowSqlCommand(cache: ThreadCache<CacheValue>, channel: string, threadTs: Option<string>, now: int)
    returns (reply: Reply)
    modifies cache
    ensures Handled(reply, cache.store) == ShowSqlButton(old(cache.store), cache.ttl, channel, threadTs, now)
  {
    var last := ThreadEntry(cache, channel, threadTs, now);
    if last.None? {
      reply := Say(NoSqlText);
    } else {
      reply := Say(SqlBlock(last.value.sql));
    }
  }

  /** `_handle_query` on the shared cache, one clock reading `now` for the whole request. */
  method HandleQuery(cache: ThreadCache<CacheValue>, env: Env, channel: string, threadTs: Option<string>,
                     userId: string, text: string, now: int) returns (reply: Reply)
    requires CacheInv(cache.store)
    modifies cache
    ensures CacheInv(cache.store)
    ensures Handled(reply, cache.store)
            == HandleQuerySpec(old(cache.store), cache.ttl, env, channel, threadTs, userId, text, now)
  {
    if IsExport(text) {
      var last := GetLastFromCache(cache, channel, threadTs, now);
      if last.None? {
        reply := Say(NoExportText);
      } else {
        reply := Upload(last.value.df);
      }
      return;
    }
    if IsShowSql(text) {
      var last := GetLastFromCache(cache, channel, threadTs, now);
      if last.None? {
        reply := Say(NoSqlText);
      } else {
        reply := Say(SqlBlock(last.value.sql));
      }
      return;
    }
    reply := AnswerQuery(cache, env, channel, threadTs, userId, text, now);
  }

  /** Lines 150-207 of the handler: plan with the thread's context, decline or execute. */
  method AnswerQuery(cache: ThreadCache<CacheValue>, env: Env, channel: string, threadTs: Option<string>,
                     userId: string, text: string, now: int) returns (reply: Reply)
    requires CacheInv(cache.store)
    modifies cache
    ensures Handled(reply, cache.store) == Answer(old(cache.store), cache.ttl, env, channel, threadTs, userId, text, now)
  {
    var last := ThreadEntry(cache, channel, threadTs, now);
    var lastPlan := if last.Some? then Some(last.value.plan) else None;
    assert (lastPlan, cache.store) == PlanningContext(old(cache.store), cache.ttl, channel, threadTs, now);
    var plan := env.plan(text, lastPlan).plan;
    if AnswerTypeIs(plan, "decline") {
      reply := Decline(DeclineMessage(plan));
    } else {
      reply := ExecutePlan(cache, env, channel, threadTs, userId, plan, now);
    }
  }

  /** Lines 165-207 of the handler: run, filter, write both cache keys, reply. */
  method ExecutePlan(cache: ThreadCache<CacheValue>, env: Env, channel: string, threadTs: Option<string>,
                     userId: string, plan: Dict, now: int) returns (reply: Reply)
    requires CacheInv(cache.store)
    modifies cache
    ensures Handled(reply, cache.store) == Execute(old(cache.store), env, channel, threadTs, userId, plan, now)
  {
    if "sql" !in plan {
      reply := Say(RunFailedText + "'sql'");
      return;
    }
    var ran := RunSql(plan["sql"], env.execute);
    if ran.Failure? {
      reply := Say(RunFailedText + ran.error);
      return;
    }
    var df := FilterColumns(env.admins, userId, ran.value);
    var v := Cached(plan, df);
    cache.Set(channel, TsText(threadTs), v, now);
    cache.Set(channel, LastKey, v, now);
    if CountShape(plan, df) {
      reply := CountReply(df);
    } else {
      var md := ToMarkdown(df, 10);
      reply := ShowResult(GetOr(plan, "explanation", JStr("")), GetOr(plan, "assumptions", JStr("")), md);
    }
  }

  // ---------------------------------------------------------------------------
  // Properties of the request flow
  // ---------------------------------------------------------------------------

  /**
   * The two text intents are settled before planning: the export intent wins
   * over the show-SQL one, and nothing about the model, the database or the
   * requesting user is consulted.
   */
  lemma IntentsComeFirst(store: Store<CacheValue>, ttl: int, env: Env, other: Env, channel: string,
                         threadTs: Option<string>, userId: string, otherUser: string, text: string, now: int)
    requires CacheInv(store) && (IsExport(text) || IsShowSql(text))
    ensures var h := HandleQuerySpec(store, ttl, env, channel, threadTs, userId, text, now);
      var last := LastFromCache(store, ttl, channel, threadTs, now);
      && h == HandleQuerySpec(store, ttl, other, channel, threadTs, otherUser, text, now)
      && h.store == last.store
      && (IsExport(text) ==> h.reply == (if last.value.Some? then Upload(last.value.value.df) else Say(NoExportText)))
      && (!IsExport(text) ==> h.reply == (if last.value.Some? then Say(SqlBlock(last.value.value.sql)) else Say(NoSqlText)))
  {
  }

  /** Keys of one channel differ exactly when their thread parts differ. */
  lemma {:induction false} KeySameChannel(channel: string, t1: string, t2: string)
    ensures Key(channel, t1) == Key(channel, t2) <==> t1 == t2
  {
    if Key(channel, t1) == Key(channel, t2) {
      assert t1 == Key(channel, t1)[|channel| + 1..];
      assert t2 == Key(channel, t2)[|channel| + 1..];
    }
  }

  /** Without a thread id only the channel-wide `__last__` entry is read. */
  lemma NoThreadReadsLast(store: Store<CacheValue>, ttl: int, channel: string, threadTs: Option<string>, now: int)
    requires !HasThread(threadTs)
    ensures LastFromCache(store, ttl, channel, threadTs, now) == Fetch(store, ttl, now, Key(channel, LastKey))
  {
  }

  /** A live entry for the thread is returned as is, and `__last__` is not touched. */
  lemma ThreadHitWins(store: Store<CacheValue>, ttl: int, channel: string, t: string, now: int)
    requires t != "" && Key(channel, t) in store && !Expired(store[Key(channel, t)], ttl, now)
    ensures LastFromCache(store, ttl, channel, Some(t), now) == Lookup(Some(store[Key(channel, t)].value), store)
  {
  }

  /** A live `__last__` entry always gives a result, whatever happens to the thread's entry. */
  lemma {:induction false} LastIsFallback(store: Store<CacheValue>, ttl: int, channel: string, threadTs: Option<string>, now: int)
    requires Key(channel, LastKey) in store && !Expired(store[Key(channel, LastKey)], ttl, now)
    ensures LastFromCache(store, ttl, channel, threadTs, now).value.Some?
  {
    var first := ThreadLookup(store, ttl, channel, threadTs, now);
    if first.value.None? && HasThread(threadTs) {
      var tk := Key(channel, threadTs.value);
      if tk != Key(channel, LastKey) {
        FetchKeepsOthers(store, ttl, now, tk, Key(channel, LastKey));
      }
    }
  }

  /** The planning context never comes from `__last__`: no thread, no context. */
  lemma NoThreadNoContext(store: Store<CacheValue>, ttl: int, channel: string, threadTs: Option<string>, now: int)
    requires CacheInv(store) && !HasThread(threadTs)
    ensures PlanningContext(store, ttl, channel, threadTs, now) == (None, store)
  {
  }

  /** Whatever the `__last__` entry holds, the planning context is the same. */
  lemma {:induction false} ContextIgnoresLast(store: Store<CacheValue>, ttl: int, channel: string, threadTs: Option<string>,
                                               now: int, e: Entry<CacheValue>)
    requires CacheInv(store) && Consistent(e.value) && threadTs != Some(LastKey)
    ensures CacheInv(store[Key(channel, LastKey) := e])
    ensures PlanningContext(store[Key(channel, LastKey) := e], ttl, channel, threadTs, now).0
            == PlanningContext(store, ttl, channel, threadTs, now).0
  {
    if HasThread(threadTs) {
      KeySameChannel(channel, threadTs.value, LastKey);
    }
  }

  /** A declined plan is answered without running anything and without writing the cache. */
  lemma DeclineSkipsRun(store: Store<CacheValue>, ttl: int, env: Env, execute: string -> Result<Frame, string>,
                        channel: string, threadTs: Option<string>, userId: string, text: string, now: int)
    requires CacheInv(store)
    requires var ctx := PlanningContext(store, ttl, channel, threadTs, now);
      AnswerTypeIs(env.plan(text, ctx.0).plan, "decline")
    ensures var ctx := PlanningContext(store, ttl, channel, threadTs, now);
      var plan := env.plan(text, ctx.0).plan;
      var h := Answer(store, ttl, env, channel, threadTs, userId, text, now);
      && h == Handled(Decline(DeclineMessage(plan)), ctx.1)
      && h == Answer(store, ttl, env.(execute := execute), channel, threadTs, userId, text, now)
  {
  }

  /** Small talk without a platform name gets the off-topic text, and nothing runs or is cached. */
  lemma {:induction false} OffTopicReply(store: Store<CacheValue>, ttl: int, env: Env, channel: string,
                                         threadTs: Option<string>, userId: string, text: string, now: int)
    requires CacheInv(store) && Wired(env) && IsOffTopic(text) && RequestedPlatform(text).None?
    ensures Answer(store, ttl, env, channel, threadTs, userId, text, now)
            == Handled(Decline(JStr(OffTopicText)), PlanningContext(store, ttl, channel, threadTs, now).1)
  {
    var ctx := PlanningContext(store, ttl, channel, threadTs, now);
    WiredOffTopic(env, text, ctx.0);
    OffTopicMessage();
    assert Answer(store, ttl, env, channel, threadTs, userId, text, now)
           == Respond(ctx.1, env, channel, threadTs, userId, OffTopicPlan, now);
  }

  lemma WiredOffTopic(env: Env, text: string, lastPlan: Option<Dict>)
    requires Wired(env) && IsOffTopic(text) && RequestedPlatform(text).None? && Plannable(text, lastPlan)
    ensures env.plan(text, lastPlan).plan == OffTopicPlan
  {
    assert env.plan(text, lastPlan) == PlanQuery(text, lastPlan, env.cfg, env.remote);
    OffTopicDeclines(text, lastPlan, env.cfg, env.remote, env.remote);
  }

  /** The off-topic plan is a decline that carries its own text. */
  lemma OffTopicMessage()
    ensures AnswerTypeIs(OffTopicPlan, "decline") && DeclineMessage(OffTopicPlan) == JStr(OffTopicText)
  {
    OffTopicPlanShape();
    assert Truthy(OffTopicPlan["decline_text"]);
  }

  /** SQL the gate rejects is never handed to the database, and nothing is cached. */
  lemma UnsafeSqlNeverRuns(store: Store<CacheValue>, env: Env, execute: string -> Result<Frame, string>,
                           channel: string, threadTs: Option<string>, userId: string, plan: Dict, now: int)
    requires CacheInv(store) && "sql" in plan && Sanitize(plan["sql"]).Failure?
    ensures var h := Execute(store, env, channel, threadTs, userId, plan, now);
      && h == Handled(Say(RunFailedText + Message(Sanitize(plan["sql"]).error)), store)
      && h == Execute(store, env.(execute := execute), channel, threadTs, userId, plan, now)
  {
  }

  /** A failed run is reported and leaves the cache as it was. */
  lemma RunErrorNoWrite(store: Store<CacheValue>, env: Env, channel: string, threadTs: Option<string>,
                        userId: string, plan: Dict, now: int)
    requires CacheInv(store) && "sql" in plan && RunSql(plan["sql"], env.execute).Failure?
    ensures var h := Execute(store, env, channel, threadTs, userId, plan, now);
      h.store == store && h.reply == Say(RunFailedText + RunSql(plan["sql"], env.execute).error)
  {
  }

  /** A plan without "sql" is reported like any failed run, and nothing is cached. */
  lemma MissingSqlReported(store: Store<CacheValue>, env: Env, channel: string, threadTs: Option<string>,
                           userId: string, plan: Dict, now: int)
    requires CacheInv(store) && "sql" !in plan
    ensures Execute(store, env, channel, threadTs, userId, plan, now) == Handled(Say(RunFailedText + "'sql'"), store)
  {
  }

  /** With `plan_query` as the planner, every plan that is not declined has "sql", so that path is never taken. */
  lemma WiredPlansHaveSql(env: Env, text: string, lastPlan: Option<Dict>)
    requires Wired(env) && Plannable(text, lastPlan)
    requires !AnswerTypeIs(env.plan(text, lastPlan).plan, "decline")
    ensures "sql" in env.plan(text, lastPlan).plan
  {
    assert env.plan(text, lastPlan) == PlanQuery(text, lastPlan, env.cfg, env.remote);
    OffTopicPlanShape();
  }

  /** The result a successful run caches: the authorised columns of the frame. */
  function Shown(env: Env, userId: string, plan: Dict): (df: Frame)
    requires "sql" in plan && RunSql(plan["sql"], env.execute).Success?
    ensures !IsAdmin(env.admins, userId) ==> "ua_cost" !in df.columns
  {
    FilterColumns(env.admins, userId, RunSql(plan["sql"], env.execute).value)
  }

  /**
   * A successful run caches the same value under the thread's key and the
   * channel's `__last__` key, stamped `now`, and changes no other entry.
   */
  lemma SuccessWritesBoth(store: Store<CacheValue>, env: Env, channel: string, threadTs: Option<string>,
                          userId: string, plan: Dict, now: int)
    requires CacheInv(store) && "sql" in plan && RunSql(plan["sql"], env.execute).Success?
    ensures var h := Execute(store, env, channel, threadTs, userId, plan, now);
      var e := Entry(CacheValue(plan, Shown(env, userId, plan), plan["sql"].s), now);
      var k1 := Key(channel, TsText(threadTs));
      var k2 := Key(channel, LastKey);
      && k1 in h.store && k2 in h.store && h.store[k1] == e && h.store[k2] == e
      && h.store.Keys == store.Keys + {k1, k2}
      && (forall k :: k in store && k != k1 && k != k2 ==> h.store[k] == store[k])
  {
    var v := CacheValue(plan, Shown(env, userId, plan), plan["sql"].s);
    assert Execute(store, env, channel, threadTs, userId, plan, now).store == WriteBoth(store, channel, threadTs, v, now);
    WriteBothShape(store, channel, threadTs, v, now);
  }

  /** Right after the two writes, and within the TTL, `_get_last_from_cache` finds the written value. */
  lemma LastAfterWrite(store: Store<CacheValue>, ttl: int, channel: string, threadTs: Option<string>,
                       v: CacheValue, now: int, later: int)
    requires later - now <= ttl
    ensures LastFromCache(WriteBoth(store, channel, threadTs, v, now), ttl, channel, threadTs, later).value == Some(v)
  {
    WriteBothShape(store, channel, threadTs, v, now);
  }

  lemma WriteBothShape(store: Store<CacheValue>, channel: string, threadTs: Option<string>, v: CacheValue, now: int)
    ensures var s := WriteBoth(store, channel, threadTs, v, now);
      var k1 := Key(channel, TsText(threadTs));
      var k2 := Key(channel, LastKey);
      && k1 in s && k2 in s && s[k1] == Entry(v, now) && s[k2] == Entry(v, now)
      && s.Keys == store.Keys + {k1, k2}
      && (forall k :: k in store && k != k1 && k != k2 ==> s[k] == store[k])
  {
  }

  /** On success the count reply is given exactly when the plan, the columns and the row count call for it. */
  lemma CountReplyIff(store: Store<CacheValue>, env: Env, channel: string, threadTs: Option<string>,
                      userId: string, plan: Dict, now: int)
    requires CacheInv(store) && "sql" in plan && RunSql(plan["sql"], env.execute).Success?
    ensures var df := Shown(env, userId, plan);
      var h := Execute(store, env, channel, threadTs, userId, plan, now);
      && (h.reply.ShowResult? <==> !CountShape(plan, df))
      && (!CountShape(plan, df) ==> h.reply.table == MarkdownTable(df, 10)
                                    && h.reply.summary == GetOr(plan, "explanation", JStr(""))
                                    && h.reply.assumptions == GetOr(plan, "assumptions", JStr("")))
  {
  }

  /** With a single `app_count` column, the count reply prints the count `int()` reads from its cell. */
  lemma CountReplyText(df: Frame, k: nat, n: int)
    requires |df.rows| == 1 && k < |df.columns| && df.columns[k] == "app_count"
    requires forall i :: 0 <= i < |df.columns| && i != k ==> df.columns[i] != "app_count"
    requires CountOf(df.rows[0][k]) == Some(n)
    ensures CountReply(df) == Say("We currently track *" + IntToString(n) + "* apps.")
  {
    var i := ColumnIndex(df.columns, "app_count");
    assert i == k;
    var rest := df.columns[i + 1..];
    assert forall j :: 0 <= j < |rest| ==> rest[j] == df.columns[i + 1 + j];
    assert "app_count" !in rest;
  }

  /** Two `app_count` columns make `int()` raise on the Series the lookup gives, so nothing is sent. */
  lemma DuplicateCountNoReply(df: Frame, k1: nat, k2: nat)
    requires |df.rows| == 1 && k1 < k2 < |df.columns|
    requires df.columns[k1] == "app_count" && df.columns[k2] == "app_count"
    ensures CountReply(df) == NoReply
  {
    var i := ColumnIndex(df.columns, "app_count");
    ColumnIndexAtMost(df.columns, "app_count", k1);
    assert df.columns[i + 1..][k2 - i - 1] == "app_count";
  }

  lemma {:induction false} ColumnIndexAtMost(cols: seq<string>, name: string, k: nat)
    requires k < |cols| && cols[k] == name
    ensures ColumnIndex(cols, name) <= k
  {
    if cols[0] != name {
      ColumnIndexAtMost(cols[1..], name, k - 1);
    }
  }

  /** `int()` of a count cell: an integer, or its decimal text with whitespace around it; None raises. */
  lemma CountOfCells(n: int, pre: string, post: string)
    requires AllSpace(pre) && AllSpace(post)
    ensures CountOf(IntCell(n)) == Some(n)
    ensures CountOf(TextCell(pre + IntToString(n) + post)) == Some(n)
    ensures CountOf(NullCell) == None
  {
    ParseIntRoundTrip(n, pre, post);
  }

  /** After a successful query, asking to export in the same thread within the TTL uploads that result. */
  lemma {:induction false} ExportAfterRun(store: Store<CacheValue>, ttl: int, env: Env, channel: string,
                                          threadTs: Option<string>, userId: string, plan: Dict, now: int,
                                          later: int, other: Env, otherUser: string, text: string)
    requires CacheInv(store) && "sql" in plan && RunSql(plan["sql"], env.execute).Success?
    requires later - now <= ttl && IsExport(text)
    ensures var s := Execute(store, env, channel, threadTs, userId, plan, now).store;
      HandleQuerySpec(s, ttl, other, channel, threadTs, otherUser, text, later).reply == Upload(Shown(env, userId, plan))
  {
    var v := CacheValue(plan, Shown(env, userId, plan), plan["sql"].s);
    var w := Execute(store, env, channel, threadTs, userId, plan, now).store;
    assert w == WriteBoth(store, channel, threadTs, v, now);
    LastAfterWrite(store, ttl, channel, threadTs, v, now, later);
    assert CacheInv(w) && LastFromCache(w, ttl, channel, threadTs, later).value == Some(v);
  }

  /** After a successful query, asking for the SQL in the same thread within the TTL shows the plan's SQL. */
  lemma {:induction false} ShowSqlAfterRun(store: Store<CacheValue>, ttl: int, env: Env, channel: string,
                                           threadTs: Option<string>, userId: string, plan: Dict, now: int,
                                           later: int, other: Env, otherUser: string, text: string)
    requires CacheInv(store) && "sql" in plan && RunSql(plan["sql"], env.execute).Success?
    requires later - now <= ttl && !IsExport(text) && IsShowSql(text)
    ensures var s := Execute(store, env, channel, threadTs, userId, plan, now).store;
      HandleQuerySpec(s, ttl, other, channel, threadTs, otherUser, text, later).reply == Say(SqlBlock(plan["sql"].s))
  {
    var v := CacheValue(plan, Shown(env, userId, plan), plan["sql"].s);
    var w := Execute(store, env, channel, threadTs, userId, plan, now).store;
    assert w == WriteBoth(store, channel, threadTs, v, now);
    LastAfterWrite(store, ttl, channel, threadTs, v, now, later);
    assert CacheInv(w) && LastFromCache(w, ttl, channel, threadTs, later).value == Some(v);
  }

  /** The buttons and `/export` read the thread's key only: without one they never find anything. */
  lemma ButtonsNeedThread(store: Store<CacheValue>, ttl: int, channel: string, threadTs: Option<string>, now: int)
    requires !HasThread(threadTs)
    ensures ExportButton(store, ttl, channel, threadTs, now) == Handled(Say(NoExportText), store)
    ensures ShowSqlButton(store, ttl, channel, threadTs, now) == Handled(Say(NoSqlText), store)
  {
  }

  /**
   * Where the thread has no entry but the channel's `__last__` entry is live,
   * the export button finds nothing while the typed export request uploads it.
   */
  lemma {:induction false} ButtonIgnoresLast(store: Store<CacheValue>, ttl: int, env: Env, channel: string, t: string,
                                             userId: string, text: string, now: int)
    requires CacheInv(store) && t != LastKey && Key(channel, t) !in store && IsExport(text)
    requires Key(channel, LastKey) in store && !Expired(store[Key(channel, LastKey)], ttl, now)
    ensures ExportButton(store, ttl, channel, Some(t), now).reply == Say(NoExportText)
    ensures HandleQuerySpec(store, ttl, env, channel, Some(t), userId, text, now).reply
            == Upload(store[Key(channel, LastKey)].value.df)
  {
    KeySameChannel(channel, t, LastKey);
  }
}
