/**
 * The follow-up rewrite: when the new message names a platform, the previous
 * statement is rewritten textually to filter on that platform. Each regular
 * expression is matched exactly as `re` does it, including the substitutions
 * of every match (the calls pass no count).
 */
module Followup {
  import opened Wrappers
  import opened Text
  import opened Patterns

  datatype Platform = IOS | Android

  function PlatformName(p: Platform): string {
    match p
    case IOS => "iOS"
    case Android => "Android"
  }

  /** `(ios|android)` under `re.I` matches at index `i`; no word boundary is asked for. */
  predicate MentionAt(t: string, i: nat) {
    LitAt(t, i, "ios", true) || LitAt(t, i, "android", true)
  }

  /** The index `re.search` reports: the first mention at or after `i`. */
  function FirstMention(t: string, i: nat): (r: Option<nat>)
    requires i <= |t|
    ensures r.Some? ==> i <= r.value < |t| && MentionAt(t, r.value)
    ensures r.Some? ==> forall j :: i <= j < r.value ==> !MentionAt(t, j)
    ensures r.None? ==> forall j :: i <= j <= |t| ==> !MentionAt(t, j)
    decreases |t| - i
  {
    if i == |t| then None
    else if MentionAt(t, i) then Some(i)
    else FirstMention(t, i + 1)
  }

  /** The platform of the first mention: `iOS` when it reads `ios`, `Android` otherwise. */
  function RequestedPlatform(t: string): Option<Platform> {
    match FirstMention(t, 0)
    case None => None
    case Some(i) => Some(if LitAt(t, i, "ios", true) then IOS else Android)
  }

  /** `;\s*$` matches at `j`: a `;` followed by nothing but whitespace. */
  predicate SemicolonTailAt(s: string, j: nat) {
    j < |s| && s[j] == ';' && AllSpace(s[j + 1..])
  }

  function FirstSemicolonTail(s: string, j: nat): (r: Option<nat>)
    requires j <= |s|
    ensures r.Some? ==> j <= r.value && SemicolonTailAt(s, r.value)
    ensures r.Some? ==> forall k :: j <= k < r.value ==> !SemicolonTailAt(s, k)
    ensures r.None? ==> forall k :: j <= k <= |s| ==> !SemicolonTailAt(s, k)
    decreases |s| - j
  {
    if j == |s| then None
    else if SemicolonTailAt(s, j) then Some(j)
    else FirstSemicolonTail(s, j + 1)
  }

  /** `re.sub(r";\s*$", "", s)`: the leftmost match runs to the end, so everything from it on goes. */
  function DropTrailingSemicolon(s: string): string {
    match FirstSemicolonTail(s, 0)
    case None => s
    case Some(j) => s[..j]
  }

  /** On stripped text the substitution removes exactly one final `;`. */
  lemma DropOnStripped(s: string)
    requires Stripped(s)
    ensures DropTrailingSemicolon(s) == if EndsWith(s, ';') then s[..|s| - 1] else s
  {
    match FirstSemicolonTail(s, 0)
    case None =>
      if EndsWith(s, ';') {
        assert SemicolonTailAt(s, |s| - 1);
        assert false;
      }
    case Some(j) =>
      if j < |s| - 1 {
        assert false;
      }
  }

  /** The first non-whitespace index at or after `i`. */
  function SkipSpaces(s: string, i: nat): (j: nat)
    requires i <= |s|
    ensures i <= j <= |s| && AllSpace(s[i..j])
    ensures j < |s| ==> !IsSpace(s[j])
    decreases |s| - i
  {
    if i < |s| && IsSpace(s[i]) then
      var j := SkipSpaces(s, i + 1);
      assert s[i..j] == [s[i]] + s[i + 1..j];
      j
    else i
  }

  /**
   * The end of a match of `\bplatform\s*=\s*'(?:iOS|Android)'\b` (under `re.I`)
   * that starts at `i`. The final `\b` follows a quote, so it holds only when a
   * word character comes next.
   */
  function SwapMatch(s: string, i: nat): (r: Option<nat>)
    requires i <= |s|
    ensures r.Some? ==> i < r.value <= |s|
  {
    if !(BoundaryAt(s, i) && LitAt(s, i, "platform", true)) then None
    else
      var a := SkipSpaces(s, i + 8);
      if !LitAt(s, a, "=", false) then None
      else
        var b := SkipSpaces(s, a + 1);
        if !LitAt(s, b, "'", false) then None
        else
          var v := if LitAt(s, b + 1, "ios", true) then b + 4
                   else if LitAt(s, b + 1, "android", true) then b + 8
                   else b;
          if v > b && LitAt(s, v, "'", false) && BoundaryAt(s, v + 1) then Some(v + 1) else None
  }

  predicate HasSwap(s: string) {
    exists i :: 0 <= i <= |s| && SwapMatch(s, i).Some?
  }

  /** `re.sub` of the swap pattern by `repl`, scanning from `i`. */
  function SwapAll(s: string, i: nat, repl: string): string
    requires i <= |s|
    decreases |s| - i
  {
    if i == |s| then ""
    else
      match SwapMatch(s, i)
      case Some(e) => repl + SwapAll(s, e, repl)
      case None => [s[i]] + SwapAll(s, i + 1, repl)
  }

  /** `\bwhere\b` under `re.I` matches at `i`. */
  predicate WhereAt(s: string, i: nat) {
    BoundaryAt(s, i) && LitAt(s, i, "where", true) && BoundaryAt(s, i + 5)
  }

  predicate HasWhere(s: string) {
    exists i :: 0 <= i <= |s| && WhereAt(s, i)
  }

  /** `re.sub(r"(\bwhere\b)", r"\1" + ins, s, flags=re.I)`, scanning from `i`. */
  function WhereAll(s: string, i: nat, ins: string): string
    requires i <= |s|
    decreases |s| - i
  {
    if i == |s| then ""
    else if WhereAt(s, i) then s[i..i + 5] + ins + WhereAll(s, i + 5, ins)
    else [s[i]] + WhereAll(s, i + 1, ins)
  }

  /** `\s+by` (under `re.I`) from `j`: the end of the match, if any. */
  function SpacedBy(s: string, j: nat): (r: Option<nat>)
    requires j <= |s|
    ensures r.Some? ==> j < r.value <= |s|
  {
    var a := SkipSpaces(s, j);
    if a > j && LitAt(s, a, "by", true) then Some(a + 2) else None
  }

  /** The end of a non-empty match of `group\s+by|order\s+by|limit` starting at `i`. No `\b` is asked for. */
  function KeywordEnd(s: string, i: nat): (r: Option<nat>)
    requires i <= |s|
    ensures r.Some? ==> i < r.value <= |s|
  {
    if LitAt(s, i, "group", true) then SpacedBy(s, i + 5)
    else if LitAt(s, i, "order", true) then SpacedBy(s, i + 5)
    else if LitAt(s, i, "limit", true) then Some(i + 5)
    else None
  }

  /**
   * `re.sub(r"(group\s+by|order\s+by|limit|$)", ins + r"\1", s, flags=re.I)`,
   * scanning from `i`. The `$` alternative matches the empty text at the end
   * (and before a final newline); as in Python 3.7 and later, an empty match
   * is not taken where the previous match ended empty (`mustAdvance`).
   */
  function InsertAll(s: string, i: nat, mustAdvance: bool, ins: string): string
    requires i <= |s|
    decreases |s| - i, if mustAdvance then 0 else 1
  {
    match KeywordEnd(s, i)
    case Some(e) => ins + s[i..e] + InsertAll(s, e, false, ins)
    case None =>
      if EndAt(s, i) && !mustAdvance then ins + InsertAll(s, i, true, ins)
      else if i < |s| then [s[i]] + InsertAll(s, i + 1, false, ins)
      else ""
  }

  /** `_apply_followup(last_sql, user_text)`. */
  function ApplyFollowup(lastSql: string, userText: string): (r: Option<string>)
    ensures r.None? <==> forall j :: 0 <= j <= |userText| ==> !MentionAt(userText, j)
    ensures r.Some? ==> r.value != ""
  {
    match RequestedPlatform(userText)
    case None => None
    case Some(p) =>
      Some(Rewrite(DropTrailingSemicolon(Strip(lastSql)), PlatformName(p)))
  }

  /** Steps 2 and 3 of the rewrite: swap an existing filter, extend a WHERE, or add one. */
  function Rewrite(sql: string, name: string): string {
    if HasSwap(sql) then SwapAll(sql, 0, "platform='" + name + "'")
    else if HasWhere(sql) then WhereAll(sql, 0, " platform='" + name + "' AND ")
    else InsertAll(sql, 0, false, " WHERE platform='" + name + "' ")
  }

  predicate EndsWithText(s: string, suffix: string) {
    |suffix| <= |s| && s[|s| - |suffix|..] == suffix
  }

  /** The swap pattern only matches where the closing quote is followed by a word character. */
  lemma SwapNeedsWordAfterQuote(s: string, i: nat)
    requires i <= |s| && SwapMatch(s, i).Some?
    ensures var e := SwapMatch(s, i).value; e < |s| && s[e - 1] == '\'' && IsWordChar(s[e])
  {
    var a := SkipSpaces(s, i + 8);
    var b := SkipSpaces(s, a + 1);
    var v := if LitAt(s, b + 1, "ios", true) then b + 4
             else if LitAt(s, b + 1, "android", true) then b + 8
             else b;
    assert SwapMatch(s, i) == Some(v + 1);
    assert LitAt(s, v, "'", false);
    assert CharMatches(s[v + 0], "'"[0], false);
    assert BoundaryAt(s, v + 1);
  }

  /** A platform filter whose closing quote ends the text or precedes a non-word character is never swapped. */
  lemma FilterBeforeSpaceNotSwapped(s: string)
    requires forall e :: 0 < e < |s| && s[e - 1] == '\'' ==> !IsWordChar(s[e])
    ensures !HasSwap(s)
  {
    if HasSwap(s) {
      var i :| 0 <= i <= |s| && SwapMatch(s, i).Some?;
      SwapNeedsWordAfterQuote(s, i);
    }
  }

  /** The `$` alternative always matches at the end, so the insertion branch always appends a clause there. */
  lemma {:induction false} InsertAllAppends(s: string, i: nat, mustAdvance: bool, ins: string)
    requires i <= |s| && (i < |s| || !mustAdvance)
    ensures EndsWithText(InsertAll(s, i, mustAdvance, ins), ins)
    decreases |s| - i, if mustAdvance then 0 else 1
  {
    match KeywordEnd(s, i)
    case Some(e) =>
      InsertAllAppends(s, e, false, ins);
    case None =>
      if EndAt(s, i) && !mustAdvance {
        if i < |s| {
          InsertAllAppends(s, i, true, ins);
        } else {
          assert InsertAll(s, i, true, ins) == "";
        }
      } else if i < |s| {
        InsertAllAppends(s, i + 1, false, ins);
      }
  }

  /** How many `\bwhere\b` matches the substitution finds from `i`. */
  function WhereCount(s: string, i: nat): nat
    requires i <= |s|
    decreases |s| - i
  {
    if i == |s| then 0
    else if WhereAt(s, i) then 1 + WhereCount(s, i + 5)
    else WhereCount(s, i + 1)
  }

  /** The conjunct is inserted once per match and nothing else changes length. */
  lemma {:induction false} WhereAllLength(s: string, i: nat, ins: string)
    requires i <= |s|
    ensures |WhereAll(s, i, ins)| == |s| - i + WhereCount(s, i) * |ins|
    decreases |s| - i
  {
    if i < |s| {
      var c := WhereCount(s, i);
      if WhereAt(s, i) {
        WhereAllLength(s, i + 5, ins);
        var r := WhereAll(s, i + 5, ins);
        assert WhereAll(s, i, ins) == s[i..i + 5] + ins + r;
        assert c == WhereCount(s, i + 5) + 1;
        assert (WhereCount(s, i + 5) + 1) * |ins| == WhereCount(s, i + 5) * |ins| + |ins|;
      } else {
        WhereAllLength(s, i + 1, ins);
        assert WhereAll(s, i, ins) == [s[i]] + WhereAll(s, i + 1, ins);
      }
    }
  }

  /** A `where` keyword at or after `i` means the substitution inserts at least once. */
  lemma {:induction false} WhereFound(s: string, i: nat, j: nat)
    requires i <= j <= |s| && WhereAt(s, j)
    ensures WhereCount(s, i) >= 1
    decreases |s| - i
  {
    if !WhereAt(s, i) {
      WhereFound(s, i + 1, j);
    }
  }

  /** The positions right after each `\bwhere\b` match the substitution takes, in scan order. */
  function WhereSites(s: string, i: nat): seq<nat>
    requires i <= |s|
    decreases |s| - i
  {
    if i == |s| then []
    else if WhereAt(s, i) then [i + 5] + WhereSites(s, i + 5)
    else WhereSites(s, i + 1)
  }

  /**
   * The WHERE substitution puts a copy of the condition right after each
   * listed `where`, in order, and changes nothing else.
   */
  lemma {:induction false} WhereAllWeaves(s: string, i: nat, ins: string)
    requires i <= |s|
    ensures SitesFrom(s, i, WhereSites(s, i))
    ensures WhereAll(s, i, ins) == Weave(s, i, WhereSites(s, i), ins)
    decreases |s| - i
  {
    if i < |s| {
      if WhereAt(s, i) {
        WhereAllWeaves(s, i + 5, ins);
        var rest := WhereSites(s, i + 5);
        var sites := [i + 5] + rest;
        assert WhereSites(s, i) == sites && sites[1..] == rest;
        assert Weave(s, i, sites, ins) == s[i..i + 5] + (ins + Weave(s, i + 5, rest, ins));
        AppendAssoc(s[i..i + 5], ins, WhereAll(s, i + 5, ins));
      } else {
        WhereAllWeaves(s, i + 1, ins);
        WeaveShift(s, i, i + 1, WhereSites(s, i + 1), ins);
        assert s[i..i + 1] == [s[i]];
      }
    }
  }

  /** Every position the condition goes to follows a whole-word `where`, in any case. */
  lemma {:induction false} WhereSitesFollowWhere(s: string, i: nat, k: nat)
    requires i <= |s| && k < |WhereSites(s, i)|
    ensures var p := WhereSites(s, i)[k]; 5 <= p <= |s| && WhereAt(s, p - 5)
    decreases |s| - i
  {
    if i < |s| {
      if WhereAt(s, i) {
        if k > 0 {
          WhereSitesFollowWhere(s, i + 5, k - 1);
        }
      } else {
        WhereSitesFollowWhere(s, i + 1, k);
      }
    }
  }

  /** `where` matches never overlap: none starts strictly inside another. */
  lemma WheresDisjoint(s: string, p: nat, j: nat)
    requires WhereAt(s, p) && p < j < p + 5
    ensures !WhereAt(s, j)
  {
    var d := j - p;
    assert CharMatches(s[p + d], "where"[d], true);
    assert !LitAt(s, j, "where", true) by {
      assert !CharMatches(s[j + 0], "where"[0], true);
    }
  }

  /** A `where` the scan reaches, one not inside an earlier match, gets the condition after it. */
  lemma {:induction false} WhereIsSite(s: string, i: nat, j: nat)
    requires i <= j <= |s| && WhereAt(s, j)
    requires forall p :: i <= p < j && WhereAt(s, p) ==> p + 5 <= j
    ensures j + 5 in WhereSites(s, i)
    decreases |s| - i
  {
    if i < j {
      if WhereAt(s, i) {
        WhereIsSite(s, i + 5, j);
      } else {
        WhereIsSite(s, i + 1, j);
      }
    }
  }

  /** So every whole-word `where` in the text, in any case, is followed by a copy of the condition. */
  lemma EveryWhereGetsCondition(s: string, j: nat)
    requires j <= |s| && WhereAt(s, j)
    ensures j + 5 in WhereSites(s, 0)
  {
    forall p | 0 <= p < j && WhereAt(s, p)
      ensures p + 5 <= j
    {
      if j < p + 5 {
        WheresDisjoint(s, p, j);
      }
    }
    WhereIsSite(s, 0, j);
  }

  /**
   * In the WHERE branch the rewrite is the SQL with ` platform='P' AND `
   * woven in right after every whole-word `where` and nowhere else.
   */
  lemma WhereBranchInserts(sql: string, name: string)
    requires !HasSwap(sql) && HasWhere(sql)
    ensures var ins := " platform='" + name + "' AND ";
      && SitesFrom(sql, 0, WhereSites(sql, 0))
      && Rewrite(sql, name) == Weave(sql, 0, WhereSites(sql, 0), ins)
      && WhereSites(sql, 0) != []
      && (forall k :: 0 <= k < |WhereSites(sql, 0)| ==> 5 <= WhereSites(sql, 0)[k] && WhereAt(sql, WhereSites(sql, 0)[k] - 5))
      && (forall j :: 0 <= j <= |sql| && WhereAt(sql, j) ==> j + 5 in WhereSites(sql, 0))
  {
    var ins := " platform='" + name + "' AND ";
    WhereAllWeaves(sql, 0, ins);
    var j :| 0 <= j <= |sql| && WhereAt(sql, j);
    EveryWhereGetsCondition(sql, j);
    forall k | 0 <= k < |WhereSites(sql, 0)|
      ensures 5 <= WhereSites(sql, 0)[k] && WhereAt(sql, WhereSites(sql, 0)[k] - 5)
    {
      WhereSitesFollowWhere(sql, 0, k);
    }
    forall j | 0 <= j <= |sql| && WhereAt(sql, j)
      ensures j + 5 in WhereSites(sql, 0)
    {
      EveryWhereGetsCondition(sql, j);
    }
  }

  /** `WhereAll("t where a", 0, "X")`: the condition goes right after the `where`. */
  lemma WhereExample(s: string, x: string)
    requires s == "t where a" && x == "X"
    ensures WhereAll(s, 0, x) == "t whereX a"
  {
    assert WhereSites(s, 7) == [] by {
      assert !LitAt(s, 7, "where", true) && !LitAt(s, 8, "where", true);
      assert WhereSites(s, 9) == [];
      assert WhereSites(s, 8) == [];
    }
    assert WhereAt(s, 2) by {
      assert !IsWordChar(s[1]) && IsWordChar(s[2]) && IsWordChar(s[6]) && !IsWordChar(s[7]);
      assert LitAt(s, 2, "where", true);
    }
    assert WhereSites(s, 2) == [7];
    assert !LitAt(s, 1, "where", true) by { assert !CharMatches(s[1 + 0], "where"[0], true); }
    assert !LitAt(s, 0, "where", true) by { assert !CharMatches(s[0 + 0], "where"[0], true); }
    assert WhereSites(s, 0) == [7];
    WhereAllWeaves(s, 0, x);
    assert Weave(s, 0, [7], x) == s[0..7] + (x + s[7..]);
  }

  /** A swap match at or after `i` means the replacement text turns up in the result. */
  lemma {:induction false} SwapAllContains(s: string, i: nat, j: nat, repl: string)
    requires i <= j <= |s| && SwapMatch(s, j).Some?
    ensures Contains(SwapAll(s, i, repl), repl)
    decreases |s| - i
  {
    if i < |s| {
      match SwapMatch(s, i)
      case Some(e) =>
        ContainsOpening(repl, SwapAll(s, e, repl));
      case None =>
        SwapAllContains(s, i + 1, j, repl);
        ContainsAfter([s[i]], SwapAll(s, i + 1, repl), repl);
    }
  }

  /** A `where` at or after `i` means the inserted condition turns up in the result. */
  lemma {:induction false} WhereAllContains(s: string, i: nat, j: nat, ins: string)
    requires i <= j <= |s| && WhereAt(s, j)
    ensures Contains(WhereAll(s, i, ins), ins)
    decreases |s| - i
  {
    if i < |s| {
      if WhereAt(s, i) {
        ContainsOpening(ins, WhereAll(s, i + 5, ins));
        ContainsAfter(s[i..i + 5], ins + WhereAll(s, i + 5, ins), ins);
        assert WhereAll(s, i, ins) == s[i..i + 5] + (ins + WhereAll(s, i + 5, ins));
      } else {
        WhereAllContains(s, i + 1, j, ins);
        ContainsAfter([s[i]], WhereAll(s, i + 1, ins), ins);
      }
    }
  }

  /** Whichever branch runs, the rewritten query names the platform as `platform='name'`. */
  lemma RewriteNamesPlatform(sql: string, name: string)
    ensures Contains(Rewrite(sql, name), "platform='" + name + "'")
  {
    var w := "platform='" + name + "'";
    if HasSwap(sql) {
      var j :| 0 <= j <= |sql| && SwapMatch(sql, j).Some?;
      SwapAllContains(sql, 0, j, w);
    } else if HasWhere(sql) {
      WhereNamesPlatform(sql, name);
    } else {
      InsertNamesPlatform(sql, name);
    }
  }

  lemma WhereNamesPlatform(sql: string, name: string)
    requires HasWhere(sql)
    ensures Contains(WhereAll(sql, 0, " platform='" + name + "' AND "), "platform='" + name + "'")
  {
    var w := "platform='" + name + "'";
    var ins := " " + w + " AND ";
    assert ins == " platform='" + name + "' AND ";
    var j :| 0 <= j <= |sql| && WhereAt(sql, j);
    WhereAllContains(sql, 0, j, ins);
    ContainsMiddle(" ", w, " AND ");
    ContainsTrans(WhereAll(sql, 0, ins), ins, w);
  }

  lemma InsertNamesPlatform(sql: string, name: string)
    ensures Contains(InsertAll(sql, 0, false, " WHERE platform='" + name + "' "), "platform='" + name + "'")
  {
    var w := "platform='" + name + "'";
    var ins := " WHERE " + w + " ";
    assert ins == " WHERE platform='" + name + "' ";
    InsertAllAppends(sql, 0, false, ins);
    EndsWithContains(InsertAll(sql, 0, false, ins), ins);
    ContainsMiddle(" WHERE ", w, " ");
    ContainsTrans(InsertAll(sql, 0, false, ins), ins, w);
  }

  lemma EndsWithContains(r: string, suffix: string)
    requires EndsWithText(r, suffix)
    ensures Contains(r, suffix)
  {
    assert OccursAt(r, |r| - |suffix|, suffix);
  }

  /** Whenever the follow-up pass answers, the rewritten query filters on the platform the user named. */
  lemma FollowupNamesPlatform(lastSql: string, userText: string)
    requires ApplyFollowup(lastSql, userText).Some?
    ensures RequestedPlatform(userText).Some?
    ensures Contains(ApplyFollowup(lastSql, userText).value,
                     "platform='" + PlatformName(RequestedPlatform(userText).value) + "'")
  {
    RewriteNamesPlatform(DropTrailingSemicolon(Strip(lastSql)), PlatformName(RequestedPlatform(userText).value));
  }

  // ---------------------------------------------------------------------------
  // The insertion substitution as an edit: where the copies of the clause go
  // ---------------------------------------------------------------------------

  /** The positions at which `InsertAll` puts a copy of the clause, in scan order. */
  function InsertSites(s: string, i: nat, mustAdvance: bool): seq<nat>
    requires i <= |s|
    decreases |s| - i, if mustAdvance then 0 else 1
  {
    match KeywordEnd(s, i)
    case Some(e) => [i] + InsertSites(s, e, false)
    case None =>
      if EndAt(s, i) && !mustAdvance then [i] + InsertSites(s, i, true)
      else if i < |s| then InsertSites(s, i + 1, false)
      else []
  }

  /** Positions in scan order, none before `i` and none past the end. */
  predicate SitesFrom(s: string, i: nat, sites: seq<nat>)
    decreases |sites|
  {
    sites == [] || (i <= sites[0] <= |s| && SitesFrom(s, sites[0], sites[1..]))
  }

  /** `s[i..]` with a copy of `ins` put in front of each listed position. */
  function Weave(s: string, i: nat, sites: seq<nat>, ins: string): string
    requires i <= |s| && SitesFrom(s, i, sites)
    decreases |sites|
  {
    if sites == [] then s[i..] else s[i..sites[0]] + (ins + Weave(s, sites[0], sites[1..], ins))
  }

  /** Text skipped over before the first position is kept in front. */
  lemma WeaveShift(s: string, i: nat, e: nat, sites: seq<nat>, ins: string)
    requires i <= e <= |s| && SitesFrom(s, e, sites)
    ensures SitesFrom(s, i, sites)
    ensures Weave(s, i, sites, ins) == s[i..e] + Weave(s, e, sites, ins)
  {
    if sites == [] {
      assert s[i..] == s[i..e] + s[e..];
    } else {
      var p := sites[0];
      var w := ins + Weave(s, p, sites[1..], ins);
      assert Weave(s, i, sites, ins) == s[i..p] + w;
      assert Weave(s, e, sites, ins) == s[e..p] + w;
      assert s[i..p] == s[i..e] + s[e..p];
      AppendAssoc(s[i..e], s[e..p], w);
    }
  }

  lemma AppendAssoc(a: string, b: string, c: string)
    ensures (a + b) + c == a + (b + c)
  {
  }

  /**
   * The insertion substitution puts a copy of the clause in front of each
   * position it lists, in order, and changes nothing else.
   */
  lemma {:induction false} InsertAllWeaves(s: string, i: nat, mustAdvance: bool, ins: string)
    requires i <= |s|
    ensures SitesFrom(s, i, InsertSites(s, i, mustAdvance))
    ensures InsertAll(s, i, mustAdvance, ins) == Weave(s, i, InsertSites(s, i, mustAdvance), ins)
    decreases |s| - i, if mustAdvance then 0 else 1, 1
  {
    match KeywordEnd(s, i)
    case Some(e) =>
      WeaveKeyword(s, i, mustAdvance, e, ins);
    case None =>
      if EndAt(s, i) && !mustAdvance {
        WeaveEnd(s, i, ins);
      } else if i < |s| {
        WeaveChar(s, i, mustAdvance, ins);
      }
  }

  lemma {:induction false} WeaveKeyword(s: string, i: nat, mustAdvance: bool, e: nat, ins: string)
    requires i <= |s| && KeywordEnd(s, i) == Some(e)
    ensures SitesFrom(s, i, InsertSites(s, i, mustAdvance))
    ensures InsertAll(s, i, mustAdvance, ins) == Weave(s, i, InsertSites(s, i, mustAdvance), ins)
    decreases |s| - i, if mustAdvance then 0 else 1, 0
  {
    InsertAllWeaves(s, e, false, ins);
    var rest := InsertSites(s, e, false);
    var sites := [i] + rest;
    var x := InsertAll(s, e, false, ins);
    assert InsertSites(s, i, mustAdvance) == sites;
    assert InsertAll(s, i, mustAdvance, ins) == ins + s[i..e] + x;
    assert sites[1..] == rest;
    WeaveShift(s, i, e, rest, ins);
    assert Weave(s, i, sites, ins) == s[i..i] + (ins + Weave(s, i, rest, ins));
    assert s[i..i] == [];
    AppendAssoc(ins, s[i..e], x);
  }

  lemma {:induction false} WeaveEnd(s: string, i: nat, ins: string)
    requires i <= |s| && KeywordEnd(s, i).None? && EndAt(s, i)
    ensures SitesFrom(s, i, InsertSites(s, i, false))
    ensures InsertAll(s, i, false, ins) == Weave(s, i, InsertSites(s, i, false), ins)
    decreases |s| - i, 1, 0
  {
    InsertAllWeaves(s, i, true, ins);
    var rest := InsertSites(s, i, true);
    var sites := [i] + rest;
    assert InsertSites(s, i, false) == sites;
    assert sites[1..] == rest;
    assert Weave(s, i, sites, ins) == s[i..i] + (ins + Weave(s, i, rest, ins));
  }

  lemma {:induction false} WeaveChar(s: string, i: nat, mustAdvance: bool, ins: string)
    requires i < |s| && KeywordEnd(s, i).None? && !(EndAt(s, i) && !mustAdvance)
    ensures SitesFrom(s, i, InsertSites(s, i, mustAdvance))
    ensures InsertAll(s, i, mustAdvance, ins) == Weave(s, i, InsertSites(s, i, mustAdvance), ins)
    decreases |s| - i, if mustAdvance then 0 else 1, 0
  {
    InsertAllWeaves(s, i + 1, false, ins);
    var sites := InsertSites(s, i + 1, false);
    assert InsertSites(s, i, mustAdvance) == sites;
    WeaveShift(s, i, i + 1, sites, ins);
    assert s[i..i + 1] == [s[i]];
  }

  /** Taking the copies out again leaves the text as it was. */
  lemma {:induction false} WeaveNothing(s: string, i: nat, sites: seq<nat>)
    requires i <= |s| && SitesFrom(s, i, sites)
    ensures Weave(s, i, sites, "") == s[i..]
    decreases |sites|
  {
    if sites != [] {
      WeaveNothing(s, sites[0], sites[1..]);
      assert s[i..] == s[i..sites[0]] + s[sites[0]..];
    }
  }

  /** Every position the clause goes in front of starts a keyword match or is where `$` matches. */
  lemma {:induction false} SitesAreMatches(s: string, i: nat, mustAdvance: bool, k: nat)
    requires i <= |s| && k < |InsertSites(s, i, mustAdvance)|
    ensures var p := InsertSites(s, i, mustAdvance)[k]; p <= |s| && (KeywordEnd(s, p).Some? || EndAt(s, p))
    decreases |s| - i, if mustAdvance then 0 else 1
  {
    match KeywordEnd(s, i)
    case Some(e) =>
      if k > 0 {
        SitesAreMatches(s, e, false, k - 1);
      }
    case None =>
      if EndAt(s, i) && !mustAdvance {
        if k > 0 {
          SitesAreMatches(s, i, true, k - 1);
        }
      } else if i < |s| {
        SitesAreMatches(s, i + 1, false, k);
      }
  }

  /**
   * Every keyword match the scan reaches, that is one not inside an earlier
   * match, gets a copy of the clause in front of it.
   */
  lemma {:induction false} KeywordIsSite(s: string, i: nat, mustAdvance: bool, j: nat)
    requires i <= j <= |s| && KeywordEnd(s, j).Some?
    requires forall p :: i <= p < j && KeywordEnd(s, p).Some? ==> KeywordEnd(s, p).value <= j
    ensures j in InsertSites(s, i, mustAdvance)
    decreases |s| - i, if mustAdvance then 0 else 1
  {
    if i < j {
      match KeywordEnd(s, i)
      case Some(e) =>
        KeywordIsSite(s, e, false, j);
      case None =>
        KeywordIsSite(s, i + 1, false, j);
    }
  }

  /** A keyword match starts with `g`, `o` or `l` in either case, and an `o` is followed by an `r`. */
  lemma KeywordOpens(s: string, j: nat)
    requires j <= |s| && KeywordEnd(s, j).Some?
    ensures j + 1 < |s|
    ensures Lower(s[j]) == 'g' || Lower(s[j]) == 'o' || Lower(s[j]) == 'l'
    ensures Lower(s[j]) == 'o' ==> Lower(s[j + 1]) == 'r'
  {
    if LitAt(s, j, "group", true) {
      assert CharMatches(s[j + 0], "group"[0], true);
    } else if LitAt(s, j, "order", true) {
      assert CharMatches(s[j + 0], "order"[0], true) && CharMatches(s[j + 1], "order"[1], true);
    } else {
      assert LitAt(s, j, "limit", true);
      assert CharMatches(s[j + 0], "limit"[0], true);
    }
  }

  /** The characters of `\s+by` after a keyword's first word are whitespace, `b` or `y`. */
  lemma SpacedByChars(s: string, a: nat, j: nat)
    requires a <= j <= |s| && SpacedBy(s, a).Some? && j < SpacedBy(s, a).value
    ensures Lower(s[j]) != 'g' && Lower(s[j]) != 'o' && Lower(s[j]) != 'l'
  {
    var b := SkipSpaces(s, a);
    if j < b {
      assert s[a..b][j - a] == s[j];
      assert IsSpace(s[j]);
    } else {
      assert LitAt(s, b, "by", true);
      assert CharMatches(s[b + (j - b)], "by"[j - b], true);
    }
  }

  /** No keyword match starts at a character other than `g`, `o` or `l`, nor at an `o` not followed by `r`. */
  lemma NotKeywordStart(s: string, j: nat)
    requires j < |s|
    requires Lower(s[j]) != 'g' && Lower(s[j]) != 'l'
    requires Lower(s[j]) == 'o' ==> j + 1 < |s| && Lower(s[j + 1]) != 'r'
    ensures KeywordEnd(s, j).None?
  {
    assert !LitAt(s, j, "group", true) by {
      assert !CharMatches(s[j + 0], "group"[0], true);
    }
    assert !LitAt(s, j, "order", true) by {
      if Lower(s[j]) == 'o' {
        assert !CharMatches(s[j + 1], "order"[1], true);
      } else {
        assert !CharMatches(s[j + 0], "order"[0], true);
      }
    }
    assert !LitAt(s, j, "limit", true) by {
      assert !CharMatches(s[j + 0], "limit"[0], true);
    }
  }

  /** Keyword matches never overlap: none starts strictly inside another. */
  lemma KeywordsDisjoint(s: string, p: nat, j: nat)
    requires p < j <= |s| && KeywordEnd(s, p).Some? && j < KeywordEnd(s, p).value
    ensures KeywordEnd(s, j).None?
  {
    var d := j - p;
    if LitAt(s, p, "group", true) {
      if d < 5 {
        assert CharMatches(s[p + d], "group"[d], true);
        assert CharMatches(s[p + 3], "group"[3], true);
      } else {
        SpacedByChars(s, p + 5, j);
      }
    } else if LitAt(s, p, "order", true) {
      if d < 5 {
        assert CharMatches(s[p + d], "order"[d], true);
      } else {
        SpacedByChars(s, p + 5, j);
      }
    } else {
      assert LitAt(s, p, "limit", true) && d < 5;
      assert CharMatches(s[p + d], "limit"[d], true);
    }
    NotKeywordStart(s, j);
  }

  /** So every `group by`, `order by` and `limit` in the text gets the clause in front of it. */
  lemma EveryKeywordGetsClause(s: string, j: nat)
    requires j <= |s| && KeywordEnd(s, j).Some?
    ensures j in InsertSites(s, 0, false)
  {
    forall p | 0 <= p < j && KeywordEnd(s, p).Some?
      ensures KeywordEnd(s, p).value <= j
    {
      if KeywordEnd(s, p).value > j {
        KeywordsDisjoint(s, p, j);
      }
    }
    KeywordIsSite(s, 0, false, j);
  }

  /** `InsertAll("group by a", 0, false, "X")`: the clause goes before `group by` and again at the end. */
  lemma GroupByExample(s: string, x: string)
    requires s == "group by a" && x == "X"
    ensures InsertAll(s, 0, false, x) == x + s + x
    ensures InsertAll(s, 0, false, x) == "Xgroup by aX"
  {
    GroupByTail(s, x);
    GroupByAt0(s);
    InsertKeywordStep(s, 0, 8, x);
    var t := InsertAll(s, 8, false, x);
    assert InsertAll(s, 0, false, x) == x + s[0..8] + t;
    assert s == s[0..8] + s[8..];
    GroupByText(s, x);
  }

  lemma GroupByText(s: string, x: string)
    requires s == "group by a" && x == "X"
    ensures x + s + x == "Xgroup by aX"
  {
  }

  lemma GroupByTail(s: string, x: string)
    requires s == "group by a" && x == "X"
    ensures InsertAll(s, 8, false, x) == s[8..] + x
  {
    assert InsertAll(s, 10, true, x) == "";
    InsertEndStep(s, 10, x);
    InsertCharStep(s, 9, x);
    InsertCharStep(s, 8, x);
    assert s[8..] == [s[8]] + [s[9]];
  }

  lemma GroupByAt0(s: string)
    requires s == "group by a"
    ensures KeywordEnd(s, 0) == Some(8)
  {
    assert LitAt(s, 0, "group", true);
    assert SkipSpaces(s, 6) == 6;
    assert SkipSpaces(s, 5) == 6;
    assert LitAt(s, 6, "by", true);
  }

  lemma InsertKeywordStep(s: string, i: nat, e: nat, ins: string)
    requires i <= |s| && KeywordEnd(s, i) == Some(e)
    ensures InsertAll(s, i, false, ins) == ins + s[i..e] + InsertAll(s, e, false, ins)
  {
  }

  lemma InsertEndStep(s: string, i: nat, ins: string)
    requires i <= |s| && KeywordEnd(s, i).None? && EndAt(s, i)
    ensures InsertAll(s, i, false, ins) == ins + InsertAll(s, i, true, ins)
  {
  }

  lemma InsertCharStep(s: string, i: nat, ins: string)
    requires i < |s| && Lower(s[i]) != 'g' && Lower(s[i]) != 'o' && Lower(s[i]) != 'l' && !EndAt(s, i)
    ensures InsertAll(s, i, false, ins) == [s[i]] + InsertAll(s, i + 1, false, ins)
  {
    NotKeywordStart(s, i);
  }

  // ---------------------------------------------------------------------------
  // The swap substitution as an edit: which spans the replacement takes over
  // ---------------------------------------------------------------------------

  /** The matches `SwapAll` replaces, as start and end positions in scan order. */
  function SwapSpans(s: string, i: nat): seq<(nat, nat)>
    requires i <= |s|
    decreases |s| - i
  {
    if i == |s| then []
    else
      match SwapMatch(s, i)
      case Some(e) => [(i, e)] + SwapSpans(s, e)
      case None => SwapSpans(s, i + 1)
  }

  /** Non-empty spans in scan order, none before `i` and none past the end. */
  predicate SpansFrom(s: string, i: nat, spans: seq<(nat, nat)>)
    decreases |spans|
  {
    spans == [] || (i <= spans[0].0 < spans[0].1 <= |s| && SpansFrom(s, spans[0].1, spans[1..]))
  }

  /** `s[i..]` with each listed span replaced by `repl`. */
  function Replace(s: string, i: nat, spans: seq<(nat, nat)>, repl: string): string
    requires i <= |s| && SpansFrom(s, i, spans)
    decreases |spans|
  {
    if spans == [] then s[i..] else s[i..spans[0].0] + (repl + Replace(s, spans[0].1, spans[1..], repl))
  }

  /** Text skipped over before the first span is kept in front. */
  lemma ReplaceShift(s: string, i: nat, e: nat, spans: seq<(nat, nat)>, repl: string)
    requires i <= e <= |s| && SpansFrom(s, e, spans)
    ensures SpansFrom(s, i, spans)
    ensures Replace(s, i, spans, repl) == s[i..e] + Replace(s, e, spans, repl)
  {
    if spans == [] {
      assert s[i..] == s[i..e] + s[e..];
    } else {
      var p := spans[0].0;
      var w := repl + Replace(s, spans[0].1, spans[1..], repl);
      assert Replace(s, i, spans, repl) == s[i..p] + w;
      assert Replace(s, e, spans, repl) == s[e..p] + w;
      assert s[i..p] == s[i..e] + s[e..p];
      AppendAssoc(s[i..e], s[e..p], w);
    }
  }

  /** The swap substitution replaces exactly the spans it lists and keeps the text between them. */
  lemma {:induction false} SwapAllReplaces(s: string, i: nat, repl: string)
    requires i <= |s|
    ensures SpansFrom(s, i, SwapSpans(s, i))
    ensures SwapAll(s, i, repl) == Replace(s, i, SwapSpans(s, i), repl)
    decreases |s| - i
  {
    if i < |s| {
      match SwapMatch(s, i)
      case Some(e) =>
        SwapAllReplaces(s, e, repl);
        var rest := SwapSpans(s, e);
        var spans := [(i, e)] + rest;
        assert SwapSpans(s, i) == spans && spans[1..] == rest;
        assert Replace(s, i, spans, repl) == s[i..i] + (repl + Replace(s, e, rest, repl));
        assert s[i..i] == [];
      case None =>
        SwapAllReplaces(s, i + 1, repl);
        ReplaceShift(s, i, i + 1, SwapSpans(s, i + 1), repl);
        assert s[i..i + 1] == [s[i]];
    }
  }

  /** Every listed span is a match of the swap pattern. */
  lemma {:induction false} SpansAreMatches(s: string, i: nat, k: nat)
    requires i <= |s| && k < |SwapSpans(s, i)|
    ensures var sp := SwapSpans(s, i)[k]; sp.0 <= |s| && SwapMatch(s, sp.0) == Some(sp.1)
    decreases |s| - i
  {
    if i < |s| {
      match SwapMatch(s, i)
      case Some(e) =>
        if k > 0 {
          SpansAreMatches(s, e, k - 1);
        }
      case None =>
        SpansAreMatches(s, i + 1, k);
    }
  }

  /** Every swap match the scan reaches, that is one not inside an earlier match, is replaced. */
  lemma {:induction false} SwapMatchReplaced(s: string, i: nat, j: nat)
    requires i <= j <= |s| && SwapMatch(s, j).Some?
    requires forall p :: i <= p < j && SwapMatch(s, p).Some? ==> SwapMatch(s, p).value <= j
    ensures (j, SwapMatch(s, j).value) in SwapSpans(s, i)
    decreases |s| - i
  {
    if i < j {
      match SwapMatch(s, i)
      case Some(e) =>
        SwapMatchReplaced(s, e, j);
      case None =>
        SwapMatchReplaced(s, i + 1, j);
    }
  }

  /** No swap match starts at a character other than `p` in either case. */
  lemma NotSwapStart(s: string, j: nat)
    requires j < |s| && Lower(s[j]) != 'p'
    ensures SwapMatch(s, j).None?
  {
    assert !LitAt(s, j, "platform", true) by {
      if j + 8 <= |s| {
        assert !CharMatches(s[j + 0], "platform"[0], true);
      }
    }
  }

  /** Swap matches never overlap: none starts strictly inside another. */
  lemma SwapMatchesDisjoint(s: string, p: nat, j: nat)
    requires p < j <= |s| && SwapMatch(s, p).Some? && j < SwapMatch(s, p).value
    ensures SwapMatch(s, j).None?
  {
    var a := SkipSpaces(s, p + 8);
    var b := SkipSpaces(s, a + 1);
    var ios := LitAt(s, b + 1, "ios", true);
    var v := if ios then b + 4 else if LitAt(s, b + 1, "android", true) then b + 8 else b;
    assert SwapMatch(s, p) == Some(v + 1);
    if j < p + 8 {
      assert CharMatches(s[p + (j - p)], "platform"[j - p], true);
    } else if j < a {
      assert s[p + 8..a][j - p - 8] == s[j];
    } else if j == a {
      assert CharMatches(s[a + 0], "="[0], false);
    } else if j < b {
      assert s[a + 1..b][j - a - 1] == s[j];
    } else if j == b {
      assert CharMatches(s[b + 0], "'"[0], false);
    } else if j < v {
      if ios {
        assert CharMatches(s[b + 1 + (j - b - 1)], "ios"[j - b - 1], true);
      } else {
        assert CharMatches(s[b + 1 + (j - b - 1)], "android"[j - b - 1], true);
      }
    } else {
      assert CharMatches(s[v + 0], "'"[0], false);
    }
    NotSwapStart(s, j);
  }

  /** So every match of the swap pattern in the text is replaced. */
  lemma EverySwapMatchReplaced(s: string, j: nat)
    requires j <= |s| && SwapMatch(s, j).Some?
    ensures (j, SwapMatch(s, j).value) in SwapSpans(s, 0)
  {
    forall p | 0 <= p < j && SwapMatch(s, p).Some?
      ensures SwapMatch(s, p).value <= j
    {
      if SwapMatch(s, p).value > j {
        SwapMatchesDisjoint(s, p, j);
      }
    }
    SwapMatchReplaced(s, 0, j);
  }
}
