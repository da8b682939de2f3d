/**
 * Query planning: the ordered cascade of `plan_query` (follow-up rewrite,
 * off-topic decline, language model first, rule table, language model
 * fallback, fixed generic plan) and the defensive handling of the model's
 * reply. The model itself and the JSON decoder are parameters.
 */
module Agent {
  import opened Wrappers
  import opened Text
  import opened Json
  import opened Patterns
  import opened Followup

  /** The two configuration flags the cascade reads. */
  datatype Config = Config(useOpenAI: bool, llmFirst: bool)

  /** What one call to the language model gives back: its text, or a raised exception. */
  datatype LlmReply = Replied(content: string) | CallFailed

  /** `ask(k)` answers the k-th model call of this request; `loads` stands for `json.loads`. */
  datatype Remote = Remote(ask: nat -> LlmReply, loads: string -> Option<Value>)

  datatype LlmError = RequestFailed | MalformedJson | NotAnObject

  /** Which strategy committed the plan (what the planner logs). */
  datatype Strategy = FollowUp | OffTopic | LlmFirst | Rule(index: nat) | LlmFallback | Generic

  /** The plan, the strategy that produced it, and how many model calls were made. */
  datatype Outcome = Outcome(plan: Dict, strategy: Strategy, llmCalls: nat)

  datatype RuleEntry = RuleEntry(pattern: Pattern, plan: Dict)

  function Plan(sql: string, answerType: string, explanation: string, assumptions: string): Dict {
    map["sql" := JStr(sql), "answer_type" := JStr(answerType),
        "explanation" := JStr(explanation), "assumptions" := JStr(assumptions)]
  }

  function Anchored(words: seq<string>): seq<seq<Elem>> {
    if words == [] then []
    else [[Start, Spaces(false), Lit(words[0]), Spaces(false), Opt('!'), End]] + Anchored(words[1..])
  }

  function Bounded(words: seq<string>): seq<seq<Elem>> {
    if words == [] then [] else [[Boundary, Lit(words[0]), Boundary]] + Bounded(words[1..])
  }

  const Greetings: seq<string> :=
    ["hi", "hello", "hey", "yo", "sup", "hiya", "good morning", "good afternoon", "good evening"]
  const Thanks: seq<string> := ["thanks", "thank you", "thx"]
  const OffTopicWords: seq<string> := ["joke", "weather", "time", "date", "news"]

  /** `OFFTOPIC_PATTERNS`, in order, all under `re.I`. */
  const OffTopicPatterns: seq<Pattern> := [
    Pattern(Anchored(Greetings), true),
    Pattern(Anchored(Thanks), true),
    Pattern(Bounded(OffTopicWords), true)
  ]

  const HelpText: string :=
    "I answer analytics " + "about the Rounds app " + "portfolio. Try:\n"
    + "\U{2022} how many apps do we " + "have?\n"
    + "\U{2022} how many android apps " + "do we have?\n"
    + "\U{2022} which country " + "generates the most " + "revenue?\n"
    + "\U{2022} list all iOS apps " + "sorted by their " + "popularity\n"
    + "\U{2022} biggest change in UA " + "spend Jan 2025 vs Dec " + "2024"

  const UaDeltaSql: string :=
    "SELECT app_name, " + "ua_dec_2024_12 AS " + "ua_dec_2024_12, " + "ua_jan_2025_01 AS "
      + "ua_jan_2025_01, "
    + "(ua_jan_2025_01 - " + "ua_dec_2024_12) AS " + "delta, "
    + "CASE WHEN " + "ua_dec_2024_12=0 THEN " + "NULL ELSE " + "(ua_jan_2025_01 - "
      + "ua_dec_2024_12)*1.0/ua_d" + "ec_2024_12 END AS " + "pct_change "
    + "FROM ( "
    + "  SELECT app_name, "
    + "         SUM(CASE WHEN " + "date BETWEEN " + "'2024-12-01' AND " + "'2024-12-31' THEN "
      + "ua_cost ELSE 0 END) AS " + "ua_dec_2024_12, "
    + "         SUM(CASE WHEN " + "date BETWEEN " + "'2025-01-01' AND " + "'2025-01-31' THEN "
      + "ua_cost ELSE 0 END) AS " + "ua_jan_2025_01 "
    + "  FROM app_metrics "
    + "  GROUP BY app_name "
    + ") t "
    + "ORDER BY ABS(delta) " + "DESC "
    + "LIMIT 100"

  const HelpPattern: Pattern := Pattern([[Start, Spaces(false), Lit("help"), Spaces(false), End]], true)

  /** `SIMPLE_RULES`, in order: each pattern (under `re.I`) with the plan it returns unchanged. */
  const Rules: seq<RuleEntry> := [
    RuleEntry(HelpPattern,
      Plan("", "decline", "", "")["decline_text" := JStr(HelpText)]),
    RuleEntry(Pattern([[Lit("how"), Spaces(true), Lit("many"), Spaces(true), Lit("apps"), Spaces(true),
                        Lit("do"), Spaces(true), Lit("we"), Spaces(true), Lit("have"), Opt('?')]], true),
      Plan("SELECT COUNT(DISTINCT " + "app_name) AS app_count " + "FROM app_metrics;", "simple",
           "Counts distinct app " + "names.", "")),
    RuleEntry(Pattern([[Lit("how"), Spaces(true), Lit("many"), Spaces(true), Lit("android"), Spaces(true),
                        Lit("apps")]], true),
      Plan("SELECT COUNT(DISTINCT " + "app_name) AS app_count " + "FROM app_metrics WHERE "
        + "platform='Android';", "simple",
           "Counts distinct Android " + "apps.", "")),
    RuleEntry(Pattern([[Lit("which"), Spaces(true), Lit("country"), Spaces(true), Lit("generate"), Opt('s'),
                        Spaces(true), Lit("the"), Spaces(true), Lit("most"), Spaces(true), Lit("revenue")]], true),
      Plan("SELECT country, " + "SUM(in_app_revenue + " + "ads_revenue) AS " + "total_revenue FROM "
        + "app_metrics GROUP BY " + "country ORDER BY " + "total_revenue DESC " + "LIMIT 20;",
           "table", "Ranks countries by " + "total revenue.", "Using all available " + "data.")),
    RuleEntry(Pattern([[Lit("list"), Spaces(true), Lit("all"), Spaces(true), Lit("ios"), Spaces(true),
                        Lit("apps"), AnyRun, Lit("popularity")]], true),
      Plan("SELECT app_name, " + "SUM(installs) AS " + "popularity FROM " + "app_metrics WHERE "
        + "platform='iOS' AND date " + ">= date('now','-30 " + "day') GROUP BY app_name "
        + "ORDER BY popularity " + "DESC LIMIT 100;",
           "table", "Popularity defined as " + "installs over last 30 "
             + "days.", "Popularity=installs(last" + " 30 days).")),
    RuleEntry(Pattern([[Lit("biggest"), Spaces(true), Lit("change"), Spaces(true), Lit("in"), Spaces(true),
                        Lit("ua"), Spaces(true), Lit("spend"), AnyRun, Lit("jan"), Spaces(false), Lit("2025"),
                        AnyRun, Lit("dec"), Spaces(false), Lit("2024")]], true),
      Plan(UaDeltaSql, "table", "Compares monthly UA " + "cost and ranks by " + "absolute change.",
           "Months fixed to Dec " + "2024 vs Jan 2025."))
  ]

  const OffTopicText: string :=
    "I'm focused on the " + "Rounds app portfolio " + "analytics. "
    + "Try questions like:\n"
    + "\U{2022} how many apps do we " + "have?\n"
    + "\U{2022} which country " + "generates the most " + "revenue?\n"
    + "\U{2022} list all iOS apps " + "sorted by popularity\n"
    + "\U{2022} biggest change in UA " + "spend Jan 2025 vs Dec " + "2024"

  /** The off-topic decline: it carries no "sql" key. */
  const OffTopicPlan: Dict :=
    map["answer_type" := JStr("decline"), "decline_text" := JStr(OffTopicText),
        "explanation" := JStr(""), "assumptions" := JStr("")]

  const GenericPlan: Dict :=
    Plan("SELECT app_name, " + "platform, date, " + "country, installs, " + "in_app_revenue + "
      + "ads_revenue AS " + "total_revenue, ua_cost " + "FROM app_metrics ORDER "
      + "BY date DESC LIMIT 100;",
         "table", "Generic recent rows.", "No specific intent " + "detected; showing " + "recent data.")

  predicate IsOffTopic(text: string) {
    SearchAny(OffTopicPatterns, text)
  }

  /** The first rule at or after `k` whose pattern finds a match. */
  function FirstRuleFrom(text: string, k: nat): (r: Option<nat>)
    requires k <= |Rules|
    ensures r.Some? ==> k <= r.value < |Rules| && Search(Rules[r.value].pattern, text)
    ensures r.Some? ==> forall j :: k <= j < r.value ==> !Search(Rules[j].pattern, text)
    ensures r.None? ==> forall j :: k <= j < |Rules| ==> !Search(Rules[j].pattern, text)
    decreases |Rules| - k
  {
    if k == |Rules| then None
    else if Search(Rules[k].pattern, text) then Some(k)
    else FirstRuleFrom(text, k + 1)
  }

  function FirstRule(text: string): Option<nat> {
    FirstRuleFrom(text, 0)
  }

  /** The number of `c` characters that open `s`. */
  function LeadingRun(s: string, c: char): (n: nat)
    ensures n <= |s| && forall i :: 0 <= i < n ==> s[i] == c
    ensures n < |s| ==> s[n] != c
  {
    if s == [] || s[0] != c then 0 else 1 + LeadingRun(s[1..], c)
  }

  /** The number of `c` characters that close `s`. */
  function TrailingRun(s: string, c: char): (n: nat)
    ensures n <= |s| && forall i :: |s| - n <= i < |s| ==> s[i] == c
    ensures n < |s| ==> s[|s| - 1 - n] != c
  {
    if s == [] || s[|s| - 1] != c then 0 else 1 + TrailingRun(s[..|s| - 1], c)
  }

  /** `s.strip(c)`. */
  function StripChar(s: string, c: char): (r: string)
    ensures r == [] || (r[0] != c && r[|r| - 1] != c)
  {
    var t := s[LeadingRun(s, c)..];
    t[..|t| - TrailingRun(t, c)]
  }

  function FirstIndex(s: string, c: char): (r: Option<nat>)
    ensures r.Some? ==> r.value < |s| && s[r.value] == c && c !in s[..r.value]
    ensures r.None? ==> c !in s
  {
    if s == [] then None
    else if s[0] == c then Some(0)
    else match FirstIndex(s[1..], c)
      case None => None
      case Some(i) => assert s[..i + 1] == [s[0]] + s[1..][..i]; Some(i + 1)
  }

  function LastIndex(s: string, c: char): (r: Option<nat>)
    ensures r.Some? ==> r.value < |s| && s[r.value] == c && c !in s[r.value + 1..]
    ensures r.None? ==> c !in s
  {
    if s == [] then None
    else if s[|s| - 1] == c then Some(|s| - 1)
    else
      var init := s[..|s| - 1];
      match LastIndex(init, c)
      case None => None
      case Some(i) => assert s[i + 1..] == init[i + 1..] + [s[|s| - 1]]; Some(i)
  }

  /** Strip whitespace, then backticks, then keep the outermost `{...}` when both braces occur. */
  function ExtractJson(content: string): (raw: string)
    ensures '{' in raw && '}' in raw ==> raw[0] == '{' && raw[|raw| - 1] == '}'
  {
    BraceSlice(StripChar(Strip(content), '`'))
  }

  /**
   * `raw[raw.find("{") : raw.rfind("}") + 1]` when both braces occur, `raw`
   * otherwise. Python's slice is empty when the last `}` comes before the
   * first `{`.
   */
  function BraceSlice(t: string): (raw: string)
    ensures '{' in raw && '}' in raw ==> raw[0] == '{' && raw[|raw| - 1] == '}'
    ensures '{' !in t || '}' !in t ==> raw == t
    ensures '{' in t && '}' in t ==>
      var i := FirstIndex(t, '{').value; var j := LastIndex(t, '}').value;
      && (j < i ==> raw == [])
      && (i <= j ==> |raw| == j + 1 - i && OccursAt(t, i, raw) && raw[0] == '{' && raw[|raw| - 1] == '}')
  {
    match (FirstIndex(t, '{'), LastIndex(t, '}'))
    case (Some(i), Some(j)) => if i <= j then t[i..j + 1] else ""
    case _ => t
  }

  /** A reply whose only `}` precedes its only `{` is sliced to nothing. */
  lemma ReversedBracesEmpty()
    ensures ExtractJson("}{") == ""
  {
    var t := "}{";
    StripStripped(t);
    StripCharNone(t, '`');
    ReversedIndices(t);
  }

  /** A text that neither opens nor closes with `c` is kept by `strip(c)`. */
  lemma StripCharNone(t: string, c: char)
    requires t != [] && t[0] != c && t[|t| - 1] != c
    ensures StripChar(t, c) == t
  {
    assert LeadingRun(t, c) == 0 && TrailingRun(t, c) == 0;
  }

  lemma ReversedIndices(t: string)
    requires t == "}{"
    ensures FirstIndex(t, '{') == Some(1) && LastIndex(t, '}') == Some(0)
  {
    assert t[1..] == "{" && t[..1] == "}";
  }

  /** A plan with the four fields `_llm_plan` fills in. */
  predicate Complete(d: Dict) {
    "sql" in d && "answer_type" in d && "explanation" in d && "assumptions" in d
  }

  /** The four `setdefault` calls: missing fields get defaults, present ones are kept. */
  function WithDefaults(d: Dict): (r: Dict)
    ensures r.Keys == d.Keys + {"sql", "answer_type", "explanation", "assumptions"}
    ensures forall k :: k in d ==> r[k] == d[k]
    ensures "sql" !in d ==> r["sql"] == JStr("")
    ensures "answer_type" !in d ==> r["answer_type"] == JStr("table")
    ensures "explanation" !in d ==> r["explanation"] == JStr("")
    ensures "assumptions" !in d ==> r["assumptions"] == JStr("")
  {
    var d1 := SetDefault(d, "sql", JStr(""));
    var d2 := SetDefault(d1, "answer_type", JStr("table"));
    var d3 := SetDefault(d2, "explanation", JStr(""));
    SetDefault(d3, "assumptions", JStr(""))
  }

  /** The tail of `_llm_plan`: a plan from the model's reply, or the exception it raises. */
  function LlmPlan(reply: LlmReply, loads: string -> Option<Value>): (r: Result<Dict, LlmError>)
    ensures r.Success? ==> Complete(r.value)
  {
    match reply
    case CallFailed => Failure(RequestFailed)
    case Replied(content) =>
      match loads(ExtractJson(content))
      case None => Failure(MalformedJson)
      case Some(JObj(d)) => Success(WithDefaults(d))
      case Some(_) => Failure(NotAnObject)
  }

  /** A previous plan whose "sql" `_apply_followup` can strip: text, or a falsy value that `or ""` replaces. */
  predicate SqlIsText(p: Dict) {
    "sql" !in p || p["sql"].JStr? || !Truthy(p["sql"])
  }

  /** What `plan_query` needs of its arguments: a previous plan it may rewrite has text as its "sql". */
  predicate Plannable(text: string, lastPlan: Option<Dict>) {
    lastPlan.Some? && RequestedPlatform(text).Some? ==> SqlIsText(lastPlan.value)
  }

  /** `(last_plan.get("sql", "") or "")`. */
  function LastSql(p: Dict): string
    requires SqlIsText(p)
  {
    if "sql" in p && p["sql"].JStr? then p["sql"].s else ""
  }

  function FollowupPlan(sql: string, last: Dict): (p: Dict)
    ensures p.Keys == {"sql", "answer_type", "explanation", "assumptions"}
    ensures p["sql"] == JStr(sql) && p["answer_type"] == GetOr(last, "answer_type", JStr("table"))
  {
    map["sql" := JStr(sql), "answer_type" := GetOr(last, "answer_type", JStr("table")),
        "explanation" := JStr("Follow-up filtered by " + "platform."),
        "assumptions" := JStr("Interpreted as a " + "platform filter " + "follow-up.")]
  }

  /** Whether the follow-up pass commits: a non-empty previous plan and a rewrite that is not empty. */
  function FollowupSql(text: string, lastPlan: Option<Dict>): Option<string>
    requires Plannable(text, lastPlan)
  {
    if lastPlan.Some? && lastPlan.value != map[] then
      match ApplyFollowup(if RequestedPlatform(text).Some? then LastSql(lastPlan.value) else "", text)
      case Some(s) => if s != "" then Some(s) else None
      case None => None
    else None
  }

  /** `plan_query(user_text, last_plan)`. */
  function PlanQuery(text: string, lastPlan: Option<Dict>, cfg: Config, remote: Remote): (r: Outcome)
    requires Plannable(text, lastPlan)
    ensures r.strategy == OffTopic ==> r.plan == OffTopicPlan
    ensures r.strategy != OffTopic ==> Complete(r.plan)
    ensures r.llmCalls <= 2 && (r.llmCalls > 0 ==> cfg.useOpenAI) && (r.llmCalls == 2 ==> cfg.llmFirst)
  {
    match FollowupSql(text, lastPlan)
    case Some(sql) => Outcome(FollowupPlan(sql, lastPlan.value), FollowUp, 0)
    case None => AfterFollowup(text, cfg, remote)
  }

  /** The stages after the follow-up pass; none of them looks at the previous plan. */
  function AfterFollowup(text: string, cfg: Config, remote: Remote): (r: Outcome)
    ensures r.strategy == OffTopic ==> r.plan == OffTopicPlan
    ensures r.strategy != OffTopic ==> Complete(r.plan)
    ensures r.strategy != FollowUp
    ensures r.llmCalls <= 2 && (r.llmCalls > 0 ==> cfg.useOpenAI) && (r.llmCalls == 2 ==> cfg.llmFirst)
  {
    if IsOffTopic(text) then Outcome(OffTopicPlan, OffTopic, 0)
    else OnTopic(text, cfg, remote)
  }

  /** The stages for on-topic text: the model first when so configured, then the rules. */
  function OnTopic(text: string, cfg: Config, remote: Remote): (r: Outcome)
    ensures Complete(r.plan)
    ensures r.strategy != FollowUp && r.strategy != OffTopic
    ensures r.llmCalls <= 2 && (r.llmCalls > 0 ==> cfg.useOpenAI) && (r.llmCalls == 2 ==> cfg.llmFirst)
  {
    var first := cfg.llmFirst && cfg.useOpenAI;
    var early := if first then LlmPlan(remote.ask(0), remote.loads) else Failure(RequestFailed);
    if first && early.Success? then Outcome(early.value, LlmFirst, 1)
    else AfterRules(text, cfg, remote, if first then 1 else 0)
  }

  /** The rule table, then the model as a fallback, then the generic plan; `calls` model calls are already made. */
  function AfterRules(text: string, cfg: Config, remote: Remote, calls: nat): (r: Outcome)
    requires calls <= 1 && (calls == 1 ==> cfg.useOpenAI && cfg.llmFirst)
    ensures Complete(r.plan)
    ensures r.strategy.Rule? || r.strategy == LlmFallback || r.strategy == Generic
    ensures r.strategy.Rule? ==> r.strategy.index < |Rules| && r.plan == Rules[r.strategy.index].plan
                                 && r.llmCalls == calls
    ensures calls <= r.llmCalls <= calls + 1 && (r.llmCalls > 0 ==> cfg.useOpenAI)
  {
    match FirstRule(text)
    case Some(k) => RulePlansComplete(k); Outcome(Rules[k].plan, Rule(k), calls)
    case None =>
      if cfg.useOpenAI then
        match LlmPlan(remote.ask(calls), remote.loads)
        case Success(d) => Outcome(d, LlmFallback, calls + 1)
        case Failure(_) => Outcome(GenericPlan, Generic, calls + 1)
      else Outcome(GenericPlan, Generic, calls)
  }

  /** Every rule plan carries the four plan fields. */
  lemma RulePlansComplete(k: nat)
    requires k < |Rules|
    ensures Complete(Rules[k].plan)
  {
  }

  /** The off-topic decline has no "sql"; it carries its text and the other plan fields. */
  lemma OffTopicPlanShape()
    ensures "sql" !in OffTopicPlan && OffTopicPlan["answer_type"] == JStr("decline")
    ensures OffTopicPlan["decline_text"] == JStr(OffTopicText)
    ensures "explanation" in OffTopicPlan && "assumptions" in OffTopicPlan
  {
  }

  /**
   * `plan_query` always returns a plan with an answer type, an explanation and
   * assumptions; it lacks "sql" exactly when the message was declined as off-topic.
   */
  lemma PlanShape(text: string, lastPlan: Option<Dict>, cfg: Config, remote: Remote)
    requires Plannable(text, lastPlan)
    ensures var r := PlanQuery(text, lastPlan, cfg, remote);
      && "answer_type" in r.plan && "explanation" in r.plan && "assumptions" in r.plan
      && ("sql" !in r.plan <==> r.strategy == OffTopic)
      && (r.strategy == OffTopic ==> r.plan["answer_type"] == JStr("decline") && "decline_text" in r.plan)
  {
    OffTopicPlanShape();
  }

  /** The help rule matches exactly a message that is `help` (in any case) between whitespace. */
  lemma HelpMatchesIff(t: string)
    ensures Search(HelpPattern, t)
            <==> exists j :: 0 <= j <= |t| && AllSpace(t[..j]) && LitAt(t, j, "help", true) && AllSpace(t[j + 4..])
  {
    var tail := [Lit("help"), Spaces(false), End];
    var alt := [Start, Spaces(false), Lit("help"), Spaces(false), End];
    AnchoredSearch(HelpPattern, t);
    assert HelpPattern.alternatives == [alt] && HelpPattern.ignoreCase;
    if MatchAt(HelpPattern, t, 0) {
      var k :| 0 <= k < 1 && MatchesAt(HelpPattern.alternatives[k], t, 0, true);
      assert k == 0;
    }
    if MatchesAt(alt, t, 0, true) {
      assert MatchesAt(HelpPattern.alternatives[0], t, 0, true);
    }
    assert alt[1..] == [Spaces(false)] + tail;
    StarSpaces(tail, t, 0, true);
    forall j | 0 <= j <= |t|
      ensures MatchesAt(tail, t, j, true) <==> LitAt(t, j, "help", true) && AllSpace(t[j + 4..])
    {
      assert tail[1..] == [Spaces(false), End];
      if j + 4 <= |t| {
        TrailingSpacesEnd(t, j + 4, true);
      }
    }
    assert forall j :: 0 <= j <= |t| ==> t[0..j] == t[..j];
  }

  /** `\bw\b` under `re.I`: the word `w` stands on its own at `i`. */
  predicate WordAt(t: string, i: nat, w: string) {
    BoundaryAt(t, i) && LitAt(t, i, w, true) && BoundaryAt(t, i + |w|)
  }

  lemma {:induction false} BoundedShape(ws: seq<string>, k: nat)
    requires k < |ws|
    ensures |Bounded(ws)| == |ws| && Bounded(ws)[k] == [Boundary, Lit(ws[k]), Boundary]
  {
    if k > 0 {
      BoundedShape(ws[1..], k - 1);
    } else if |ws| > 1 {
      BoundedShape(ws[1..], 0);
    }
  }

  lemma BoundedMatch(t: string, i: nat, w: string)
    requires i <= |t|
    ensures MatchesAt([Boundary, Lit(w), Boundary], t, i, true) <==> WordAt(t, i, w)
  {
    var p := [Boundary, Lit(w), Boundary];
    assert p[1..] == [Lit(w), Boundary];
    assert p[1..][1..] == [Boundary];
    assert MatchesAt(p, t, i, true) == (BoundaryAt(t, i) && MatchesAt([Lit(w), Boundary], t, i, true));
    if LitAt(t, i, w, true) {
      assert MatchesAt([Lit(w), Boundary], t, i, true) == MatchesAt([Boundary], t, i + |w|, true);
      assert MatchesAt([Boundary], t, i + |w|, true) == BoundaryAt(t, i + |w|);
    }
  }

  /** The third off-topic pattern fires exactly when one of its words stands alone somewhere in the message. */
  lemma OffTopicWordIff(t: string)
    ensures Search(OffTopicPatterns[2], t)
            <==> exists i, k :: 0 <= i <= |t| && 0 <= k < |OffTopicWords| && WordAt(t, i, OffTopicWords[k])
  {
    var pat := OffTopicPatterns[2];
    assert pat == Pattern(Bounded(OffTopicWords), true);
    SearchIff(pat, t);
    BoundedShape(OffTopicWords, 0);
    forall i, k | 0 <= i <= |t| && 0 <= k < |OffTopicWords|
      ensures MatchesAt(pat.alternatives[k], t, i, true) <==> WordAt(t, i, OffTopicWords[k])
    {
      BoundedShape(OffTopicWords, k);
      BoundedMatch(t, i, OffTopicWords[k]);
    }
    if Search(pat, t) {
      var i :| 0 <= i <= |t| && MatchAt(pat, t, i);
      var k :| 0 <= k < |pat.alternatives| && MatchesAt(pat.alternatives[k], t, i, true);
      assert WordAt(t, i, OffTopicWords[k]);
    }
    if exists i, k :: 0 <= i <= |t| && 0 <= k < |OffTopicWords| && WordAt(t, i, OffTopicWords[k]) {
      var i, k :| 0 <= i <= |t| && 0 <= k < |OffTopicWords| && WordAt(t, i, OffTopicWords[k]);
      assert MatchAt(pat, t, i);
    }
  }

  /** Whether the cascade leaves its first stage: no previous plan, or no platform named. */
  predicate NoFollowup(text: string, lastPlan: Option<Dict>) {
    lastPlan.None? || lastPlan.value == map[] || RequestedPlatform(text).None?
  }

  /** A previous plan and a named platform always commit the follow-up, before any other stage. */
  lemma FollowupComesFirst(text: string, last: Dict, cfg: Config, remote: Remote)
    requires last != map[] && RequestedPlatform(text).Some? && SqlIsText(last)
    ensures var r := PlanQuery(text, Some(last), cfg, remote);
      r.strategy == FollowUp && r.llmCalls == 0
      && r.plan["sql"] == JStr(ApplyFollowup(LastSql(last), text).value)
      && r.plan["answer_type"] == GetOr(last, "answer_type", JStr("table"))
  {
    FollowupSqlOf(text, last);
    var sql := ApplyFollowup(LastSql(last), text).value;
    assert PlanQuery(text, Some(last), cfg, remote) == Outcome(FollowupPlan(sql, last), FollowUp, 0);
  }

  lemma FollowupSqlOf(text: string, last: Dict)
    requires last != map[] && RequestedPlatform(text).Some? && SqlIsText(last)
    ensures FollowupSql(text, Some(last)) == ApplyFollowup(LastSql(last), text)
  {
  }

  /** The follow-up plan's SQL filters on the platform the message names. */
  lemma FollowupFiltersPlatform(text: string, last: Dict, cfg: Config, remote: Remote)
    requires last != map[] && RequestedPlatform(text).Some? && SqlIsText(last)
    ensures Contains(PlanQuery(text, Some(last), cfg, remote).plan["sql"].s,
                     "platform='" + PlatformName(RequestedPlatform(text).value) + "'")
  {
    FollowupComesFirst(text, last, cfg, remote);
    FollowupNamesPlatform(LastSql(last), text);
  }

  /** Without a previous plan, or without a platform in the text, the follow-up stage never commits. */
  lemma FollowupNeedsPlatform(text: string, lastPlan: Option<Dict>, cfg: Config, remote: Remote)
    requires NoFollowup(text, lastPlan)
    ensures PlanQuery(text, lastPlan, cfg, remote).strategy != FollowUp
  {
  }

  /** Without a follow-up, the cascade is its later stages. */
  lemma SkipsFollowup(text: string, lastPlan: Option<Dict>, cfg: Config, remote: Remote)
    requires NoFollowup(text, lastPlan)
    ensures PlanQuery(text, lastPlan, cfg, remote) == AfterFollowup(text, cfg, remote)
  {
  }

  /** Past the off-topic and model-first stages, the cascade is the rule table and what follows it. */
  lemma ReachesRules(text: string, cfg: Config, remote: Remote)
    requires !IsOffTopic(text) && !(cfg.llmFirst && cfg.useOpenAI && LlmPlan(remote.ask(0), remote.loads).Success?)
    ensures AfterFollowup(text, cfg, remote) == AfterRules(text, cfg, remote, if cfg.llmFirst && cfg.useOpenAI then 1 else 0)
  {
  }

  /** Rule `k` is the first match when it matches and no earlier rule does. */
  lemma FirstRuleIs(text: string, k: nat)
    requires k < |Rules| && Search(Rules[k].pattern, text)
    requires forall j :: 0 <= j < k ==> !Search(Rules[j].pattern, text)
    ensures FirstRule(text) == Some(k)
  {
  }

  /** Small talk is declined without SQL and without calling the model, whatever the model would say. */
  lemma OffTopicDeclines(text: string, lastPlan: Option<Dict>, cfg: Config, remote: Remote, other: Remote)
    requires NoFollowup(text, lastPlan) && IsOffTopic(text)
    ensures var r := PlanQuery(text, lastPlan, cfg, remote);
      r == Outcome(OffTopicPlan, OffTopic, 0) && r == PlanQuery(text, lastPlan, cfg, other)
  {
  }

  /** In language-model-first mode a usable reply to the first call wins over every rule. */
  lemma LlmFirstWins(text: string, lastPlan: Option<Dict>, cfg: Config, remote: Remote)
    requires NoFollowup(text, lastPlan) && !IsOffTopic(text) && cfg.llmFirst && cfg.useOpenAI
    requires LlmPlan(remote.ask(0), remote.loads).Success?
    ensures PlanQuery(text, lastPlan, cfg, remote)
            == Outcome(LlmPlan(remote.ask(0), remote.loads).value, LlmFirst, 1)
  {
    SkipsFollowup(text, lastPlan, cfg, remote);
  }

  /** Otherwise the first matching rule's plan is returned unchanged; the model was asked at most once. */
  lemma FirstRuleWins(text: string, lastPlan: Option<Dict>, cfg: Config, remote: Remote, k: nat)
    requires NoFollowup(text, lastPlan) && !IsOffTopic(text)
    requires !(cfg.llmFirst && cfg.useOpenAI && LlmPlan(remote.ask(0), remote.loads).Success?)
    requires k < |Rules| && Search(Rules[k].pattern, text)
    requires forall j :: 0 <= j < k ==> !Search(Rules[j].pattern, text)
    ensures var r := PlanQuery(text, lastPlan, cfg, remote);
      r.plan == Rules[k].plan && r.strategy == Rule(k)
      && r.llmCalls == (if cfg.llmFirst && cfg.useOpenAI then 1 else 0)
  {
    SkipsFollowup(text, lastPlan, cfg, remote);
    ReachesRules(text, cfg, remote);
    FirstRuleIs(text, k);
  }

  /** A bare `help` gets the help text as a decline with empty SQL, unless a model-first reply came back usable. */
  lemma HelpDeclines(text: string, j: nat, lastPlan: Option<Dict>, cfg: Config, remote: Remote)
    requires NoFollowup(text, lastPlan) && !IsOffTopic(text)
    requires !(cfg.llmFirst && cfg.useOpenAI && LlmPlan(remote.ask(0), remote.loads).Success?)
    requires j <= |text| && AllSpace(text[..j]) && LitAt(text, j, "help", true) && AllSpace(text[j + 4..])
    ensures var r := PlanQuery(text, lastPlan, cfg, remote);
      r.strategy == Rule(0) && r.plan == Rules[0].plan
      && "sql" in r.plan && r.plan["sql"] == JStr("")
      && "answer_type" in r.plan && r.plan["answer_type"] == JStr("decline")
      && "decline_text" in r.plan && r.plan["decline_text"] == JStr(HelpText)
  {
    HelpMatchesIff(text);
    assert Rules[0].pattern == HelpPattern;
    FirstRuleWins(text, lastPlan, cfg, remote, 0);
    HelpPlanShape();
  }

  /** The help rule's plan: a decline with empty SQL and the help text. */
  lemma HelpPlanShape()
    ensures Rules[0].plan["sql"] == JStr("") && Rules[0].plan["answer_type"] == JStr("decline")
    ensures Rules[0].plan["decline_text"] == JStr(HelpText)
  {
  }

  /** No rule and no model: the fixed generic plan. */
  lemma GenericWithoutModel(text: string, lastPlan: Option<Dict>, cfg: Config, remote: Remote)
    requires NoFollowup(text, lastPlan) && !IsOffTopic(text) && !cfg.useOpenAI && FirstRule(text).None?
    ensures PlanQuery(text, lastPlan, cfg, remote) == Outcome(GenericPlan, Generic, 0)
  {
    SkipsFollowup(text, lastPlan, cfg, remote);
    ReachesRules(text, cfg, remote);
  }

  /** When no rule matches, the model is asked once more; a failed reply ends in the generic plan. */
  lemma ModelAfterRules(text: string, lastPlan: Option<Dict>, cfg: Config, remote: Remote)
    requires NoFollowup(text, lastPlan) && !IsOffTopic(text) && cfg.useOpenAI && FirstRule(text).None?
    requires !(cfg.llmFirst && LlmPlan(remote.ask(0), remote.loads).Success?)
    ensures var r := PlanQuery(text, lastPlan, cfg, remote);
      var n := if cfg.llmFirst then 1 else 0;
      r.llmCalls == n + 1
      && (match LlmPlan(remote.ask(n), remote.loads)
          case Success(d) => r.plan == d && r.strategy == LlmFallback
          case Failure(_) => r.plan == GenericPlan && r.strategy == Generic)
  {
    SkipsFollowup(text, lastPlan, cfg, remote);
    ReachesRules(text, cfg, remote);
  }

  /** A model reply is only ever used with the four plan fields filled in, and what it gave is kept. */
  lemma LlmPlanComplete(reply: LlmReply, loads: string -> Option<Value>)
    requires LlmPlan(reply, loads).Success?
    ensures Complete(LlmPlan(reply, loads).value)
    ensures reply.Replied? && loads(ExtractJson(reply.content)).Some?
    ensures var v := loads(ExtractJson(reply.content)).value;
      v.JObj? && forall k :: k in v.fields ==> LlmPlan(reply, loads).value[k] == v.fields[k]
  {
  }

  /** `StripChar` keeps the window between the two runs of `c`, and every other character lies inside it. */
  lemma StripCharWindow(s: string, c: char, j: nat)
    requires j < |s| && s[j] != c
    ensures var a := LeadingRun(s, c);
      a <= j < a + |StripChar(s, c)| <= |s| && StripChar(s, c) == s[a..a + |StripChar(s, c)|]
  {
    var a := LeadingRun(s, c);
    var t := s[a..];
    assert t[j - a] == s[j];
  }

  /** Cutting a window that covers `body` out of `pre + body + post` leaves a tail of `pre`, `body`, and a head of `post`. */
  lemma WindowAround(pre: string, body: string, post: string, a: nat, e: nat)
    requires a <= |pre| && |pre| + |body| <= e <= |pre| + |body| + |post|
    ensures (pre + body + post)[a..e] == pre[a..] + body + post[..e - |pre| - |body|]
  {
  }

  /** Trimming a character class that neither end of `body` belongs to leaves a window around `body`. */
  predicate Around(t: string, pre: string, body: string, post: string) {
    exists x, y :: 0 <= x <= |pre| && 0 <= y <= |post| && t == pre[x..] + body + post[..y]
  }

  lemma StripAround(pre: string, body: string, post: string)
    requires body != [] && !IsSpace(body[0]) && !IsSpace(body[|body| - 1])
    ensures Around(Strip(pre + body + post), pre, body, post)
  {
    var s := pre + body + post;
    var lo, hi := |pre|, |pre| + |body|;
    assert s[lo] == body[0] && s[hi - 1] == body[|body| - 1];
    StripKeepsNonSpace(s, lo);
    StripKeepsNonSpace(s, hi - 1);
    StripWindow(s);
    var a := LeadingSpaces(s);
    WindowAround(pre, body, post, a, a + |Strip(s)|);
  }

  lemma StripCharAround(pre: string, body: string, post: string, c: char)
    requires body != [] && body[0] != c && body[|body| - 1] != c
    ensures Around(StripChar(pre + body + post, c), pre, body, post)
  {
    var s := pre + body + post;
    var lo, hi := |pre|, |pre| + |body|;
    assert s[lo] == body[0] && s[hi - 1] == body[|body| - 1];
    StripCharWindow(s, c, lo);
    StripCharWindow(s, c, hi - 1);
    var a := LeadingRun(s, c);
    WindowAround(pre, body, post, a, a + |StripChar(s, c)|);
  }

  /** A window around `body` inside a window of `pre + body + post` is a window of `pre + body + post`. */
  lemma AroundWithin(u: string, pre: string, body: string, post: string, x: nat, y: nat)
    requires x <= |pre| && y <= |post|
    requires Around(u, pre[x..], body, post[..y])
    ensures Around(u, pre, body, post)
  {
    var x2, y2 :| 0 <= x2 <= |pre[x..]| && 0 <= y2 <= |post[..y]| && u == pre[x..][x2..] + body + post[..y][..y2];
    assert pre[x..][x2..] == pre[x + x2..];
    assert post[..y][..y2] == post[..y2];
  }

  /** Whitespace and backticks are only ever removed from outside an object that opens and closes with braces. */
  lemma TrimAround(pre: string, body: string, post: string)
    requires body != [] && body[0] == '{' && body[|body| - 1] == '}'
    ensures Around(StripChar(Strip(pre + body + post), '`'), pre, body, post)
  {
    var t := Strip(pre + body + post);
    StripAround(pre, body, post);
    var x, y :| 0 <= x <= |pre| && 0 <= y <= |post| && t == pre[x..] + body + post[..y];
    StripCharAround(pre[x..], body, post[..y], '`');
    AroundWithin(StripChar(t, '`'), pre, body, post, x, y);
  }

  /** The slice from the first `{` to the last `}` is exactly an object with no brace of that kind outside it. */
  lemma BraceSliceOf(x: string, body: string, y: string)
    requires body != [] && body[0] == '{' && body[|body| - 1] == '}'
    requires '{' !in x && '}' !in y
    ensures BraceSlice(x + body + y) == body
  {
    var t := x + body + y;
    var lo, hi := |x|, |x| + |body|;
    assert t[lo..hi] == body;
    assert t[lo] == '{' && t[hi - 1] == '}';
    match FirstIndex(t, '{')
    case None =>
    case Some(f) =>
      assert f == lo;
      match LastIndex(t, '}')
      case None =>
      case Some(l) =>
        assert l == hi - 1;
  }

  /**
   * However the reply is fenced or padded, an object `{...}` with no `{` before it
   * and no `}` after it is exactly what is handed to the decoder.
   */
  lemma ExtractsObject(pre: string, body: string, post: string)
    requires body != [] && body[0] == '{' && body[|body| - 1] == '}'
    requires '{' !in pre && '}' !in post
    ensures ExtractJson(pre + body + post) == body
  {
    TrimAround(pre, body, post);
    var x, y :| 0 <= x <= |pre| && 0 <= y <= |post|
      && StripChar(Strip(pre + body + post), '`') == pre[x..] + body + post[..y];
    assert '{' !in pre[x..] && '}' !in post[..y];
    BraceSliceOf(pre[x..], body, post[..y]);
  }
}
