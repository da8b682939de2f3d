/**
 * The execution gate: the textual check every statement passes before it is
 * run against the metrics store. The store itself is a parameter.
 */
module Runner {
  import opened Wrappers
  import opened Text
  import opened Json
  import opened Tables

  datatype SqlError = EmptySql | UnsafeSql

  /** The text of the `ValueError` raised for each rejection. */
  function Message(e: SqlError): string {
    match e
    case EmptySql => "Empty SQL"
    case UnsafeSql => "Unsafe SQL detected"
  }

  /** A statement separator or a comment marker. */
  predicate HasUnsafeMarker(s: string) {
    Contains(s, ";") || Contains(s, "--") || Contains(s, "/*") || Contains(s, "*/")
  }

  /** `_sanitize` applied to whatever a plan holds under "sql": only text is accepted. */
  function Sanitize(v: Value): (r: Result<string, SqlError>)
    ensures r.Success? ==> v.JStr? && r == SanitizeText(v.s)
    ensures r == Failure(EmptySql) <==> !v.JStr? || AllSpace(v.s)
    ensures r.Success? ==> !HasUnsafeMarker(r.value) && Stripped(r.value)
  {
    match v
    case JStr(s) => SanitizeText(s)
    case _ => Failure(EmptySql)
  }

  /** `_sanitize` on text: strip, drop one trailing `;`, strip again, then refuse any marker. */
  function SanitizeText(sql: string): Result<string, SqlError> {
    var s := Strip(sql);
    if s == "" then Failure(EmptySql)
    else
      var t := DropSemicolon(s);
      if HasUnsafeMarker(t) then Failure(UnsafeSql) else Success(t)
  }

  /** One trailing `;` removed, and the whitespace it leaves behind. */
  function DropSemicolon(s: string): string {
    if EndsWith(s, ';') then Strip(s[..|s| - 1]) else s
  }

  /** `run_sql`: sanitize, then hand the statement to the store, whose failures carry a message. */
  function RunSql(v: Value, execute: string -> Result<Frame, string>): (r: Result<Frame, string>)
    ensures r.Success? ==> v.JStr? && Sanitize(v).Success? && !HasUnsafeMarker(Sanitize(v).value)
    ensures Sanitize(v).Failure? ==> r == Failure(Message(Sanitize(v).error))
    ensures Sanitize(v).Success? ==> r == execute(Sanitize(v).value)
  {
    match Sanitize(v)
    case Failure(e) => Failure(Message(e))
    case Success(s) => execute(s)
  }

  /**
   * What the gate lets through is the stripped input itself, or the stripped
   * input minus one final `;` and the whitespace before it.
   */
  lemma SanitizePrefix(sql: string)
    requires SanitizeText(sql).Success?
    ensures var s := Strip(sql); var r := SanitizeText(sql).value;
            |r| <= |s| && s[..|r|] == r
            && (s[|r|..] == [] || (s[|s| - 1] == ';' && AllSpace(s[|r|..|s| - 1])))
  {
    var s := Strip(sql);
    assert SanitizeText(sql).value == DropSemicolon(s);
    DropSemicolonPrefix(s);
  }

  lemma DropSemicolonPrefix(s: string)
    requires Stripped(s)
    ensures var r := DropSemicolon(s);
            |r| <= |s| && s[..|r|] == r
            && (s[|r|..] == [] || (s[|s| - 1] == ';' && AllSpace(s[|r|..|s| - 1])))
  {
    if EndsWith(s, ';') {
      var u := s[..|s| - 1];
      StripWindow(u);
      var a := LeadingSpaces(u);
      assert a == 0 by {
        if u != [] { assert u[0] == s[0]; }
      }
      var r := Strip(u);
      assert s[..|r|] == u[..|r|];
      assert s[|r|..|s| - 1] == u[|r|..];
    } else {
      assert s[|s|..] == [];
    }
  }

  /** A `;` anywhere but at the very end of the stripped input is refused. */
  lemma InnerSemicolonRejected(sql: string, j: nat)
    requires j + 1 < |Strip(sql)| && Strip(sql)[j] == ';'
    ensures SanitizeText(sql) == Failure(UnsafeSql)
  {
    var s := Strip(sql);
    SemicolonSurvives(s, j);
    assert HasUnsafeMarker(DropSemicolon(s));
  }

  /** Dropping the final `;` keeps every earlier one. */
  lemma SemicolonSurvives(s: string, j: nat)
    requires j + 1 < |s| && s[j] == ';'
    ensures Contains(DropSemicolon(s), ";")
  {
    if EndsWith(s, ';') {
      var u := s[..|s| - 1];
      assert u[j] == ';';
      StripKeepsNonSpace(u, j);
      StripWindow(u);
      var a := LeadingSpaces(u);
      var r := Strip(u);
      assert r[j - a] == u[j];
      assert r[j - a..j - a + 1] == ";";
      assert OccursAt(r, j - a, ";");
    } else {
      assert s[j..j + 1] == ";";
      assert OccursAt(s, j, ";");
    }
  }

  /** A comment marker anywhere in the input is refused, wherever it stands. */
  lemma CommentMarkerRejected(sql: string, w: string)
    requires w == "--" || w == "/*" || w == "*/"
    requires Contains(sql, w)
    ensures SanitizeText(sql) == Failure(UnsafeSql)
  {
    var j :| 0 <= j <= |sql| && OccursAt(sql, j, w);
    assert sql[j] == w[0] && sql[j + 1] == w[1];
    StripKeepsNonSpace(sql, j);
    StripKeepsNonSpace(sql, j + 1);
    StripWindow(sql);
    var a := LeadingSpaces(sql);
    var s := Strip(sql);
    assert s[j - a] == sql[j] && s[j - a + 1] == sql[j + 1];
    MarkerSurvivesDrop(s, j - a, w);
  }

  /** Dropping a final `;` keeps a two-character marker that holds no `;`. */
  lemma MarkerSurvivesDrop(s: string, j: nat, w: string)
    requires |w| == 2 && w[0] != ';' && w[1] != ';' && !IsSpace(w[0]) && !IsSpace(w[1])
    requires j + 1 < |s| && s[j] == w[0] && s[j + 1] == w[1]
    ensures Contains(DropSemicolon(s), w)
  {
    if EndsWith(s, ';') {
      var u := s[..|s| - 1];
      assert u[j] == w[0] && u[j + 1] == w[1];
      StripKeepsNonSpace(u, j);
      StripKeepsNonSpace(u, j + 1);
      StripWindow(u);
      var a := LeadingSpaces(u);
      var r := Strip(u);
      assert r[j - a] == w[0] && r[j - a + 1] == w[1];
      assert r[j - a..j - a + 2] == w;
      assert OccursAt(r, j - a, w);
    } else {
      assert s[j..j + 2] == w;
      assert OccursAt(s, j, w);
    }
  }

  /** Sanitizing again what the gate produced changes nothing, unless it produced the empty text. */
  lemma SanitizeIdempotent(sql: string)
    requires SanitizeText(sql).Success? && SanitizeText(sql).value != ""
    ensures SanitizeText(SanitizeText(sql).value) == SanitizeText(sql)
  {
    var r := SanitizeText(sql).value;
    StripStripped(r);
    assert Strip(r) == r;
    LastCharOccurs(r, ';');
  }

  /** The emptiness test runs before the `;` is dropped, so a lone `;` passes as the empty statement. */
  lemma LoneSemicolonAccepted()
    ensures SanitizeText(";") == Success("")
  {
    assert !IsSpace(';');
    StripStripped(";");
    EmptyIsSafe();
    assert DropSemicolon(";") == Strip("");
  }

  lemma EmptyIsSafe()
    ensures Strip("") == "" && !HasUnsafeMarker("")
  {
  }

  /** One statement followed by a single `;` is accepted as that statement. */
  lemma TrailingSemicolonDropped(stmt: string)
    requires stmt != "" && Stripped(stmt) && !HasUnsafeMarker(stmt)
    ensures SanitizeText(stmt + ";") == Success(stmt)
  {
    var s := stmt + ";";
    assert Stripped(s);
    StripStripped(s);
    assert s[..|s| - 1] == stmt;
    StripStripped(stmt);
  }

  /** `SELECT 1;` becomes `SELECT 1`. */
  lemma SelectOneAccepted()
    ensures SanitizeText("SELECT 1;") == Success("SELECT 1")
  {
    var one := "SELECT 1";
    NoChar(one, ";");
    NoChar(one, "--");
    NoChar(one, "/*");
    NoChar(one, "*/");
    TrailingSemicolonDropped(one);
    assert one + ";" == "SELECT 1;";
  }

  /** Two statements joined by a `;` are refused. */
  lemma SemicolonBetween(a: string, b: string)
    requires a != [] && !IsSpace(a[0]) && b != [] && !IsSpace(b[|b| - 1])
    ensures SanitizeText(a + ";" + b) == Failure(UnsafeSql)
  {
    var s := a + ";" + b;
    assert s[0] == a[0] && s[|s| - 1] == b[|b| - 1];
    StripStripped(s);
    assert s[|a|] == ';';
    InnerSemicolonRejected(s, |a|);
  }

  /** `SELECT 1; DROP TABLE app_metrics` is refused. */
  lemma StackedStatementRejected()
    ensures SanitizeText("SELECT 1" + ";" + " DROP TABLE app_metrics") == Failure(UnsafeSql)
  {
    SemicolonBetween("SELECT 1", " DROP TABLE app_metrics");
  }

  /** `SELECT 1;;` is refused. */
  lemma DoubledSemicolonRejected()
    ensures SanitizeText("SELECT 1" + ";" + ";") == Failure(UnsafeSql)
  {
    SemicolonBetween("SELECT 1", ";");
  }

  lemma LastCharOccurs(s: string, c: char)
    ensures EndsWith(s, c) ==> Contains(s, [c])
  {
    if EndsWith(s, c) {
      assert OccursAt(s, |s| - 1, [c]);
    }
  }

  /** A text that lacks the first character of `w` does not contain `w`. */
  lemma NoChar(s: string, w: string)
    requires w != [] && w[0] !in s
    ensures !Contains(s, w)
  {
  }
}
