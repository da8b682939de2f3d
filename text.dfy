/**
 * Character classes and string helpers with Python's semantics:
 * whitespace is what `str.isspace()` (and the `\s` class of `re` on str
 * patterns) accepts, word characters are the ASCII part of `\w`, and case
 * folding is ASCII `str.lower()`.
 */
module Text {
  import opened Wrappers

  /** Python's `str.isspace()`, which is also the `\s` class of `re`. */
  predicate IsSpace(c: char) {
    ('\t' <= c <= '\r') || ('\U{1C}' <= c <= '\U{1F}') || c == ' ' || c == '\U{85}' || c == '\U{A0}'
    || c == '\U{1680}' || ('\U{2000}' <= c <= '\U{200A}') || c == '\U{2028}' || c == '\U{2029}'
    || c == '\U{202F}' || c == '\U{205F}' || c == '\U{3000}'
  }

  /** The ASCII part of the `\w` class: letters, digits and underscore. */
  predicate IsWordChar(c: char) {
    ('a' <= c <= 'z') || ('A' <= c <= 'Z') || ('0' <= c <= '9') || c == '_'
  }

  function Lower(c: char): (r: char)
    ensures 'A' <= c <= 'Z' ==> 'a' <= r <= 'z'
    ensures !('A' <= c <= 'Z') ==> r == c
  {
    if 'A' <= c <= 'Z' then (c as int + 32) as char else c
  }

  /** `s.lower()` for ASCII letters; every other character is kept. */
  function LowerStr(s: string): (r: string)
    ensures |r| == |s|
    ensures forall i :: 0 <= i < |s| ==> r[i] == Lower(s[i])
  {
    if s == [] then [] else [Lower(s[0])] + LowerStr(s[1..])
  }

  predicate AllSpace(s: string) {
    forall i :: 0 <= i < |s| ==> IsSpace(s[i])
  }

  /** A string with no whitespace at either end, as `str.strip()` leaves it. */
  predicate Stripped(s: string) {
    s == [] || (!IsSpace(s[0]) && !IsSpace(s[|s| - 1]))
  }

  /** Number of leading whitespace characters. */
  function LeadingSpaces(s: string): (n: nat)
    ensures n <= |s| && AllSpace(s[..n])
    ensures n < |s| ==> !IsSpace(s[n])
  {
    if s == [] || !IsSpace(s[0]) then 0
    else
      var n := 1 + LeadingSpaces(s[1..]);
      assert s[..n] == [s[0]] + s[1..][..n - 1];
      n
  }

  /** Number of trailing whitespace characters. */
  function TrailingSpaces(s: string): (n: nat)
    ensures n <= |s| && AllSpace(s[|s| - n..])
    ensures n < |s| ==> !IsSpace(s[|s| - n - 1])
  {
    if s == [] || !IsSpace(s[|s| - 1]) then 0
    else
      var init := s[..|s| - 1];
      var n := 1 + TrailingSpaces(init);
      assert s[|s| - n..] == init[|init| - (n - 1)..] + [s[|s| - 1]];
      n
  }

  /** `s.strip()`. */
  function Strip(s: string): (r: string)
    ensures Stripped(r)
    ensures r == [] <==> AllSpace(s)
    ensures |r| <= |s|
  {
    var a := LeadingSpaces(s);
    var t := s[a..];
    var b := TrailingSpaces(t);
    assert AllSpace(s) ==> a == |s|;
    assert a == |s| ==> s == s[..a];
    t[..|t| - b]
  }

  /** `Strip` keeps exactly the window between the leading and trailing whitespace runs. */
  lemma StripWindow(s: string)
    ensures var a := LeadingSpaces(s);
            a + |Strip(s)| <= |s| && Strip(s) == s[a..a + |Strip(s)|] && AllSpace(s[a + |Strip(s)|..])
  {
    var a := LeadingSpaces(s);
    var t := s[a..];
    var b := TrailingSpaces(t);
    WindowOf(s, a, t, b, Strip(s));
  }

  lemma WindowOf(s: string, a: nat, t: string, b: nat, r: string)
    requires a <= |s| && t == s[a..] && b <= |t| && r == t[..|t| - b] && AllSpace(t[|t| - b..])
    ensures a + |r| <= |s| && r == s[a..a + |r|] && AllSpace(s[a + |r|..])
  {
    assert t[|t| - b..] == s[a + |r|..];
  }

  /** A character that is not whitespace is never stripped away. */
  lemma {:induction false} StripKeepsNonSpace(s: string, j: nat)
    requires j < |s| && !IsSpace(s[j])
    ensures var a := LeadingSpaces(s); a <= j < a + |Strip(s)|
  {
    StripWindow(s);
  }

  /** Stripping a string that is already stripped changes nothing. */
  lemma StripStripped(s: string)
    requires Stripped(s)
    ensures Strip(s) == s
  {
    assert LeadingSpaces(s) == 0;
    assert TrailingSpaces(s) == 0;
  }

  predicate EndsWith(s: string, c: char) {
    |s| > 0 && s[|s| - 1] == c
  }

  /** `w` occurs in `s` starting at index `i`. */
  predicate OccursAt(s: string, i: nat, w: string) {
    i + |w| <= |s| && s[i..i + |w|] == w
  }

  /** Python's `w in s`. */
  predicate Contains(s: string, w: string) {
    exists i :: 0 <= i <= |s| && OccursAt(s, i, w)
  }

  /** An occurrence in `b` is still one after text is put in front of it. */
  lemma ContainsAfter(a: string, b: string, w: string)
    requires Contains(b, w)
    ensures Contains(a + b, w)
  {
    var i :| 0 <= i <= |b| && OccursAt(b, i, w);
    assert (a + b)[|a| + i..|a| + i + |w|] == b[i..i + |w|];
    assert OccursAt(a + b, |a| + i, w);
  }

  lemma ContainsOpening(w: string, b: string)
    ensures Contains(w + b, w)
  {
    assert (w + b)[0..|w|] == w;
    assert OccursAt(w + b, 0, w);
  }

  /** A string contains what it is built around. */
  lemma ContainsMiddle(a: string, w: string, b: string)
    ensures Contains(a + w + b, w)
  {
    ContainsOpening(w, b);
    ContainsAfter(a, w + b, w);
    assert a + w + b == a + (w + b);
  }

  /** Occurrence is transitive: an occurrence of an occurrence is an occurrence. */
  lemma ContainsTrans(s: string, t: string, w: string)
    requires Contains(s, t) && Contains(t, w)
    ensures Contains(s, w)
  {
    var i :| 0 <= i <= |s| && OccursAt(s, i, t);
    var j :| 0 <= j <= |t| && OccursAt(t, j, w);
    forall k | 0 <= k < |w|
      ensures s[i + j + k] == w[k]
    {
      assert s[i..i + |t|][j + k] == t[j + k];
      assert t[j..j + |w|][k] == w[k];
    }
    assert s[i + j..i + j + |w|] == w;
    assert OccursAt(s, i + j, w);
  }

  /** `sep.join(parts)`. */
  function Join(sep: string, parts: seq<string>): string {
    if parts == [] then ""
    else if |parts| == 1 then parts[0]
    else parts[0] + sep + Join(sep, parts[1..])
  }

  /** The index of the first `c` in `s`. */
  function IndexOf(s: string, c: char): (i: nat)
    requires c in s
    ensures i < |s| && s[i] == c && c !in s[..i]
  {
    if s[0] == c then 0
    else
      var j := IndexOf(s[1..], c);
      assert s[..j + 1] == [s[0]] + s[1..][..j];
      j + 1
  }

  /** `s.split(c)`: the pieces between the separators, empty ones included. */
  function SplitOn(s: string, c: char): (parts: seq<string>)
    ensures |parts| >= 1
    ensures forall k :: 0 <= k < |parts| ==> c !in parts[k]
    ensures Join([c], parts) == s
  {
    if c !in s then [s]
    else
      var i := IndexOf(s, c);
      var rest := SplitOn(s[i + 1..], c);
      assert s == s[..i] + [c] + s[i + 1..];
      [s[..i]] + rest
  }

  /** Splitting undoes joining, for pieces without the separator. */
  lemma {:induction false} SplitJoin(parts: seq<string>, c: char)
    requires |parts| >= 1 && forall k :: 0 <= k < |parts| ==> c !in parts[k]
    ensures SplitOn(Join([c], parts), c) == parts
  {
    if |parts| > 1 {
      var s := Join([c], parts);
      SplitJoin(parts[1..], c);
      assert s == parts[0] + [c] + Join([c], parts[1..]);
      assert s[|parts[0]|] == c;
      assert s[..|parts[0]|] == parts[0];
      var i := IndexOf(s, c);
      assert i == |parts[0]|;
      assert s[i + 1..] == Join([c], parts[1..]);
    }
  }

  /** Joining one more piece appends the separator and that piece. */
  lemma {:induction false} JoinSnoc(sep: string, parts: seq<string>, x: string)
    requires |parts| >= 1
    ensures Join(sep, parts + [x]) == Join(sep, parts) + sep + x
  {
    if |parts| > 1 {
      assert (parts + [x])[1..] == parts[1..] + [x];
      JoinSnoc(sep, parts[1..], x);
    }
  }

  /** A character in neither the separator nor any piece is not in the join. */
  lemma {:induction false} JoinAvoids(sep: string, parts: seq<string>, c: char)
    requires c !in sep && forall k :: 0 <= k < |parts| ==> c !in parts[k]
    ensures c !in Join(sep, parts)
  {
    if |parts| > 1 {
      JoinAvoids(sep, parts[1..], c);
    }
  }

  function DigitChar(d: nat): (c: char)
    requires d < 10
    ensures '0' <= c <= '9'
  {
    ('0' as int + d) as char
  }

  /** `str(n)` for a natural number. */
  function NatToString(n: nat): (s: string)
    ensures |s| > 0
    decreases n
  {
    if n < 10 then [DigitChar(n)] else NatToString(n / 10) + [DigitChar(n % 10)]
  }

  /** `str(n)` for an integer. */
  function IntToString(n: int): string {
    if n < 0 then "-" + NatToString(-n) else NatToString(n)
  }

  /** The value of a string of decimal digits, read most significant first. */
  function DigitsValue(s: string): int
    decreases |s|
  {
    if s == [] then 0 else DigitsValue(s[..|s| - 1]) * 10 + (s[|s| - 1] as int - '0' as int)
  }

  /** Reading back what `NatToString` wrote gives the number. */
  lemma {:induction false} NatToStringValue(n: nat)
    ensures DigitsValue(NatToString(n)) == n
    ensures forall i :: 0 <= i < |NatToString(n)| ==> '0' <= NatToString(n)[i] <= '9'
    decreases n
  {
    if n >= 10 {
      NatToStringValue(n / 10);
      var s := NatToString(n);
      assert s[..|s| - 1] == NatToString(n / 10);
    }
  }

  predicate IsDigit(c: char) {
    '0' <= c <= '9'
  }

  /** The digits `int()` reads: ASCII digits, with single underscores allowed only between two digits. */
  predicate DigitLiteral(s: string) {
    s != [] && forall i :: 0 <= i < |s| ==> LiteralCharAt(s, i)
  }

  /** A digit, or an underscore with a digit on each side. */
  predicate LiteralCharAt(s: string, i: nat)
    requires i < |s|
  {
    IsDigit(s[i]) || (s[i] == '_' && 0 < i < |s| - 1 && IsDigit(s[i - 1]) && IsDigit(s[i + 1]))
  }

  /** The string without its underscores. */
  function NoUnderscores(s: string): (r: string)
    ensures '_' !in r
  {
    if s == [] then [] else (if s[0] == '_' then [] else [s[0]]) + NoUnderscores(s[1..])
  }

  /** `int(s)` for a text: surrounding whitespace, an optional sign, then a digit literal; None where it raises. */
  function ParseInt(s: string): Option<int> {
    ParseStripped(Strip(s))
  }

  /** What `int()` makes of the text once its surrounding whitespace is gone. */
  function ParseStripped(t: string): Option<int> {
    if t != [] && (t[0] == '+' || t[0] == '-') then
      if DigitLiteral(t[1..]) then Some((if t[0] == '-' then -1 else 1) * DigitsValue(NoUnderscores(t[1..]))) else None
    else if DigitLiteral(t) then Some(DigitsValue(NoUnderscores(t))) else None
  }

  lemma {:induction false} NoUnderscoresDigits(s: string)
    requires forall i :: 0 <= i < |s| ==> IsDigit(s[i])
    ensures NoUnderscores(s) == s
  {
    if s != [] {
      NoUnderscoresDigits(s[1..]);
    }
  }

  /** Text with no whitespace at its ends keeps exactly that text once whitespace around it is stripped. */
  lemma StripPadded(pre: string, x: string, post: string)
    requires AllSpace(pre) && AllSpace(post) && x != [] && !IsSpace(x[0]) && !IsSpace(x[|x| - 1])
    ensures Strip(pre + x + post) == x
  {
    var s := pre + x + post;
    StripKeepsNonSpace(s, |pre|);
    StripKeepsNonSpace(s, |pre| + |x| - 1);
    StripWindow(s);
    var a := LeadingSpaces(s);
    var r := Strip(s);
    assert a == |pre|;
    assert s[a + |r| - 1] == r[|r| - 1];
    assert a + |r| == |pre| + |x|;
    assert r == s[|pre|..|pre| + |x|];
  }

  /** A string of ASCII digits is a digit literal with nothing to drop, whose value `DigitsValue` gives. */
  lemma NatLiteral(m: nat)
    ensures var d := NatToString(m);
      DigitLiteral(d) && NoUnderscores(d) == d && DigitsValue(d) == m && IsDigit(d[0]) && IsDigit(d[|d| - 1])
  {
    NatToStringValue(m);
    NoUnderscoresDigits(NatToString(m));
  }

  /** `int()` reads back what `str()` wrote, whatever whitespace surrounds it. */
  lemma ParseIntRoundTrip(n: int, pre: string, post: string)
    requires AllSpace(pre) && AllSpace(post)
    ensures ParseInt(pre + IntToString(n) + post) == Some(n)
  {
    var x := IntToString(n);
    StrippedIntText(n);
    StripPadded(pre, x, post);
    ParseStrippedInt(n);
  }

  lemma StrippedIntText(n: int)
    ensures var x := IntToString(n); x != [] && !IsSpace(x[0]) && !IsSpace(x[|x| - 1])
  {
    var m: nat := if n < 0 then -n else n;
    NatLiteral(m);
  }

  lemma ParseStrippedInt(n: int)
    ensures ParseStripped(IntToString(n)) == Some(n)
  {
    if n < 0 {
      var d := NatToString(-n);
      NatLiteral(-n);
      assert IntToString(n) == "-" + d;
      assert ("-" + d)[1..] == d;
      assert ParseStripped("-" + d) == Some(-1 * DigitsValue(NoUnderscores(d)));
    } else {
      NatLiteral(n);
    }
  }

  /** A character other than whitespace, a digit, an underscore or a sign makes `int()` raise. */
  lemma ParseIntRejects(s: string, j: nat)
    requires j < |s| && !IsSpace(s[j]) && !IsDigit(s[j]) && s[j] != '_' && s[j] != '+' && s[j] != '-'
    ensures ParseInt(s).None?
  {
    StripKeepsNonSpace(s, j);
    StripWindow(s);
    var t := Strip(s);
    var k := j - LeadingSpaces(s);
    assert t[k] == s[j];
    if t[0] == '+' || t[0] == '-' {
      var u := t[1..];
      assert k > 0 && u[k - 1] == t[k];
      assert !LiteralCharAt(u, k - 1);
    } else {
      assert !LiteralCharAt(t, k);
    }
  }
}
