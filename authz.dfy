/**
 * Role-based access: the admin set parsed from a comma-separated list, and
 * the column filter that hides `ua_cost` from everyone who is not an admin.
 */
module Authz {
  import opened Text
  import opened Tables

  /** `ADMINS = set(filter(None, raw.split(",")))`: the non-empty pieces, without their surrounding commas. */
  function Admins(raw: string): (admins: set<string>)
    ensures "" !in admins
    ensures forall u :: u in admins <==> u != "" && u in SplitOn(raw, ',')
  {
    set p | p in SplitOn(raw, ',') && p != ""
  }

  predicate IsAdmin(admins: set<string>, userId: string) {
    userId in admins
  }

  /** With the variable unset (the empty default) nobody is an admin; the empty id never is. */
  lemma NoAdminsByDefault(userId: string)
    ensures !IsAdmin(Admins(""), userId) && !IsAdmin(Admins("U1,U2"), "")
  {
    assert SplitOn("", ',') == [""];
  }

  /** Every non-empty id of the list is an admin, and so is nothing else. */
  lemma {:induction false} AdminsOfList(ids: seq<string>)
    requires |ids| >= 1 && forall k :: 0 <= k < |ids| ==> ',' !in ids[k]
    ensures forall u :: IsAdmin(Admins(Join(",", ids)), u) <==> u != "" && u in ids
  {
    SplitJoin(ids, ',');
  }

  /** The column positions of `cols`, from `i` on, not named `name`, in order. */
  function KeptFrom(cols: seq<string>, name: string, i: nat): (keep: seq<nat>)
    requires i <= |cols|
    ensures forall m :: 0 <= m < |keep| ==> i <= keep[m] < |cols| && cols[keep[m]] != name
    ensures forall m, n :: 0 <= m < n < |keep| ==> keep[m] < keep[n]
    ensures forall j :: i <= j < |cols| && cols[j] != name ==> j in keep
    decreases |cols| - i
  {
    if i == |cols| then []
    else if cols[i] == name then KeptFrom(cols, name, i + 1)
    else [i] + KeptFrom(cols, name, i + 1)
  }

  function Pick<T>(s: seq<T>, idx: seq<nat>): (r: seq<T>)
    requires forall m :: 0 <= m < |idx| ==> idx[m] < |s|
    ensures |r| == |idx| && forall m :: 0 <= m < |idx| ==> r[m] == s[idx[m]]
  {
    seq(|idx|, m requires 0 <= m < |idx| => s[idx[m]])
  }

  /** `df.drop(columns=[name])`: every column so named goes, with its cell in every row. */
  function DropColumn(t: Table, name: string): (r: Table)
    requires t.Valid()
    ensures r.Valid() && |r.rows| == |t.rows|
    ensures name !in r.columns
    ensures forall c :: c in r.columns <==> c in t.columns && c != name
  {
    var keep := KeptFrom(t.columns, name, 0);
    var r := Table(Pick(t.columns, keep), seq(|t.rows|, i requires 0 <= i < |t.rows| => Pick(t.rows[i], keep)));
    assert forall c :: c in t.columns && c != name ==> c in r.columns by {
      forall c | c in t.columns && c != name ensures c in r.columns {
        var j :| 0 <= j < |t.columns| && t.columns[j] == c;
        var m :| 0 <= m < |keep| && keep[m] == j;
        assert r.columns[m] == c;
      }
    }
    r
  }

  /** `filter_columns(df, user_id)`. */
  function FilterColumns(admins: set<string>, userId: string, t: Table): (r: Table)
    requires t.Valid()
    ensures r.Valid() && |r.rows| == |t.rows|
    ensures IsAdmin(admins, userId) ==> r == t
    ensures !IsAdmin(admins, userId) ==> "ua_cost" !in r.columns
    ensures forall c :: c in r.columns <==> c in t.columns && (c != "ua_cost" || IsAdmin(admins, userId))
    ensures "ua_cost" !in t.columns ==> r == t
  {
    if IsAdmin(admins, userId) then t
    else if "ua_cost" in t.columns then DropColumn(t, "ua_cost")
    else t
  }

  /** Every other column survives the filter with all its cells, in the original column order. */
  lemma KeptColumnsIntact(admins: set<string>, userId: string, t: Table)
    requires t.Valid() && !IsAdmin(admins, userId) && "ua_cost" in t.columns
    ensures var r := FilterColumns(admins, userId, t);
      var keep := KeptFrom(t.columns, "ua_cost", 0);
      |keep| == |r.columns|
      && (forall m :: 0 <= m < |keep| ==> r.columns[m] == t.columns[keep[m]])
      && (forall i, m :: 0 <= i < |t.rows| && 0 <= m < |keep| ==> r.rows[i][m] == t.rows[i][keep[m]])
      && (forall m, n :: 0 <= m < n < |keep| ==> keep[m] < keep[n])
      && (forall j :: 0 <= j < |t.columns| && t.columns[j] != "ua_cost" ==> j in keep)
  {
  }

  /** Filtering twice is filtering once. */
  lemma FilterIdempotent(admins: set<string>, userId: string, t: Table)
    requires t.Valid()
    ensures FilterColumns(admins, userId, FilterColumns(admins, userId, t)) == FilterColumns(admins, userId, t)
  {
  }
}
