/**
 * The constant regular expressions of the bot, written as data over the few
 * constructs they use, and what `re.search` answers for them: whether some
 * position of the text starts a match of some alternative.
 */
module Patterns {
  import opened Text

  datatype Elem =
    | Lit(text: string)         // literal characters
    | Spaces(atLeastOne: bool)  // `\s+` when atLeastOne, `\s*` otherwise
    | Opt(c: char)              // `c?`
    | AnyRun                    // `.*` (any characters but a newline)
    | Start                     // `^`
    | End                       // `$`
    | Boundary                  // `\b`

  /** A top-level alternation `a1|a2|...`, with or without `re.I`. */
  datatype Pattern = Pattern(alternatives: seq<seq<Elem>>, ignoreCase: bool)

  predicate CharMatches(a: char, b: char, ignoreCase: bool) {
    if ignoreCase then Lower(a) == Lower(b) else a == b
  }

  /** The literal `w` matches the text at index `i`. */
  predicate LitAt(s: string, i: nat, w: string, ignoreCase: bool) {
    i + |w| <= |s| && forall k :: 0 <= k < |w| ==> CharMatches(s[i + k], w[k], ignoreCase)
  }

  predicate WordCharAt(s: string, j: int) {
    0 <= j < |s| && IsWordChar(s[j])
  }

  /** `\b` holds at index `i`: exactly one of the characters around it is a word character. */
  predicate BoundaryAt(s: string, i: nat) {
    WordCharAt(s, i - 1) != WordCharAt(s, i)
  }

  /** `$` without MULTILINE: the end of the text, or just before a final newline. */
  predicate EndAt(s: string, i: nat) {
    i == |s| || (i + 1 == |s| && s[i] == '\n')
  }

  /** Some way of matching the element list `p` starts at index `i`, as regex backtracking would find. */
  predicate MatchesAt(p: seq<Elem>, s: string, i: nat, ignoreCase: bool)
    requires i <= |s|
    decreases |s| - i, |p|
  {
    if p == [] then true
    else
      match p[0]
      case Lit(w) => LitAt(s, i, w, ignoreCase) && MatchesAt(p[1..], s, i + |w|, ignoreCase)
      case Spaces(one) =>
        if one then i < |s| && IsSpace(s[i]) && MatchesAt([Spaces(false)] + p[1..], s, i + 1, ignoreCase)
        else MatchesAt(p[1..], s, i, ignoreCase) || (i < |s| && IsSpace(s[i]) && MatchesAt(p, s, i + 1, ignoreCase))
      case Opt(c) =>
        (i < |s| && CharMatches(s[i], c, ignoreCase) && MatchesAt(p[1..], s, i + 1, ignoreCase))
        || MatchesAt(p[1..], s, i, ignoreCase)
      case AnyRun =>
        MatchesAt(p[1..], s, i, ignoreCase) || (i < |s| && s[i] != '\n' && MatchesAt(p, s, i + 1, ignoreCase))
      case Start => i == 0 && MatchesAt(p[1..], s, i, ignoreCase)
      case End => EndAt(s, i) && MatchesAt(p[1..], s, i, ignoreCase)
      case Boundary => BoundaryAt(s, i) && MatchesAt(p[1..], s, i, ignoreCase)
  }

  /** Some alternative of the pattern matches at index `i`. */
  predicate MatchAt(pat: Pattern, s: string, i: nat)
    requires i <= |s|
  {
    exists k :: 0 <= k < |pat.alternatives| && MatchesAt(pat.alternatives[k], s, i, pat.ignoreCase)
  }

  predicate SearchFrom(pat: Pattern, s: string, i: nat)
    requires i <= |s|
    decreases |s| - i
  {
    MatchAt(pat, s, i) || (i < |s| && SearchFrom(pat, s, i + 1))
  }

  /** `re.search(pat, s)` finds a match. */
  predicate Search(pat: Pattern, s: string) {
    SearchFrom(pat, s, 0)
  }

  /** `any(re.search(p, s) for p in pats)`. */
  predicate SearchAny(pats: seq<Pattern>, s: string) {
    exists k :: 0 <= k < |pats| && Search(pats[k], s)
  }

  /** Scanning from `i` finds a match exactly when some position at or after `i` starts one. */
  lemma {:induction false} SearchFromIff(pat: Pattern, s: string, i: nat)
    requires i <= |s|
    ensures SearchFrom(pat, s, i) <==> exists j :: i <= j <= |s| && MatchAt(pat, s, j)
    decreases |s| - i
  {
    if i < |s| {
      SearchFromIff(pat, s, i + 1);
    }
  }

  /** `re.search` succeeds exactly when some position starts a match. */
  lemma SearchIff(pat: Pattern, s: string)
    ensures Search(pat, s) <==> exists j :: 0 <= j <= |s| && MatchAt(pat, s, j)
  {
    SearchFromIff(pat, s, 0);
  }

  /** A pattern whose every alternative opens with `^` can only match at the start of the text. */
  lemma AnchoredSearch(pat: Pattern, s: string)
    requires forall k :: 0 <= k < |pat.alternatives| ==> pat.alternatives[k] != [] && pat.alternatives[k][0] == Start
    ensures Search(pat, s) <==> MatchAt(pat, s, 0)
  {
    SearchIff(pat, s);
  }

  /** One step of `\s*`: stop here, or consume a whitespace character and go on. */
  lemma StarStep(p: seq<Elem>, s: string, i: nat, ignoreCase: bool)
    requires i <= |s|
    ensures MatchesAt([Spaces(false)] + p, s, i, ignoreCase)
            == (MatchesAt(p, s, i, ignoreCase)
                || (i < |s| && IsSpace(s[i]) && MatchesAt([Spaces(false)] + p, s, i + 1, ignoreCase)))
  {
    assert ([Spaces(false)] + p)[1..] == p;
  }

  lemma {:induction false} StarSpacesSound(p: seq<Elem>, s: string, i: nat, ignoreCase: bool)
    requires i <= |s| && MatchesAt([Spaces(false)] + p, s, i, ignoreCase)
    ensures exists j :: i <= j <= |s| && AllSpace(s[i..j]) && MatchesAt(p, s, j, ignoreCase)
    decreases |s| - i
  {
    StarStep(p, s, i, ignoreCase);
    if MatchesAt(p, s, i, ignoreCase) {
      assert AllSpace(s[i..i]);
    } else {
      StarSpacesSound(p, s, i + 1, ignoreCase);
      var j :| i + 1 <= j <= |s| && AllSpace(s[i + 1..j]) && MatchesAt(p, s, j, ignoreCase);
      assert s[i..j] == [s[i]] + s[i + 1..j];
    }
  }

  lemma {:induction false} StarSpacesComplete(p: seq<Elem>, s: string, i: nat, j: nat, ignoreCase: bool)
    requires i <= j <= |s| && AllSpace(s[i..j]) && MatchesAt(p, s, j, ignoreCase)
    ensures MatchesAt([Spaces(false)] + p, s, i, ignoreCase)
    decreases j - i
  {
    StarStep(p, s, i, ignoreCase);
    if i < j {
      assert s[i + 1..j] == s[i..j][1..];
      assert IsSpace(s[i..j][0]);
      StarSpacesComplete(p, s, i + 1, j, ignoreCase);
    }
  }

  /** `\s*` followed by `p` matches at `i` exactly when `p` matches after some run of whitespace. */
  lemma StarSpaces(p: seq<Elem>, s: string, i: nat, ignoreCase: bool)
    requires i <= |s|
    ensures MatchesAt([Spaces(false)] + p, s, i, ignoreCase)
            <==> exists j :: i <= j <= |s| && AllSpace(s[i..j]) && MatchesAt(p, s, j, ignoreCase)
  {
    if MatchesAt([Spaces(false)] + p, s, i, ignoreCase) {
      StarSpacesSound(p, s, i, ignoreCase);
    }
    if exists j :: i <= j <= |s| && AllSpace(s[i..j]) && MatchesAt(p, s, j, ignoreCase) {
      var j :| i <= j <= |s| && AllSpace(s[i..j]) && MatchesAt(p, s, j, ignoreCase);
      StarSpacesComplete(p, s, i, j, ignoreCase);
    }
  }

  /** `\s*$` matches at `i` exactly when only whitespace is left. */
  lemma TrailingSpacesEnd(s: string, i: nat, ignoreCase: bool)
    requires i <= |s|
    ensures MatchesAt([Spaces(false), End], s, i, ignoreCase) <==> AllSpace(s[i..])
  {
    StarSpaces([End], s, i, ignoreCase);
    assert [Spaces(false)] + [End] == [Spaces(false), End];
    if AllSpace(s[i..]) {
      assert s[i..|s|] == s[i..];
      assert MatchesAt([End], s, |s|, ignoreCase);
    }
    if MatchesAt([Spaces(false), End], s, i, ignoreCase) {
      var j :| i <= j <= |s| && AllSpace(s[i..j]) && MatchesAt([End], s, j, ignoreCase);
      assert EndAt(s, j);
      if j < |s| {
        assert IsSpace(s[j]);
        assert s[i..] == s[i..j] + [s[j]];
      } else {
        assert s[i..j] == s[i..];
      }
    }
  }
}
