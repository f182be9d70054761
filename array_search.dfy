/**
 * `re.search(r'\[\s*{.*}\s*\]', text, re.DOTALL)`: the substring that the
 * reply-repair step hands back to the JSON parser.
 *
 * Because `.*` is greedy and `[`, `{`, `}` and `]` are not whitespace, the
 * match Python finds starts at the leftmost `[` whose whitespace run is
 * followed by `{`, and ends at the `]` after the LAST `}` (past that `{`)
 * whose whitespace run is followed by `]`.
 */
module ArraySearch {
  import opened Wrappers

  /** `\s` on a `str` pattern: the characters for which `str.isspace` holds. */
  predicate IsSpace(c: char)
  {
    c == ' ' || '\t' <= c <= '\r' || '\U{1C}' <= c <= '\U{1F}' ||
    c == '\U{85}' || c == '\U{A0}' || c == '\U{1680}' ||
    '\U{2000}' <= c <= '\U{200A}' || c == '\U{2028}' || c == '\U{2029}' ||
    c == '\U{202F}' || c == '\U{205F}' || c == '\U{3000}'
  }

  predicate AllSpace(s: string, lo: nat, hi: nat)
    requires lo <= hi <= |s|
  {
    forall p :: lo <= p < hi ==> IsSpace(s[p])
  }

  /**
   * The pattern matches `s[i..e]`: `[` at `i`, whitespace, `{` at `k`, any
   * text, `}` at `j`, whitespace, `]` at `e - 1`.
   */
  ghost predicate IsMatch(s: string, i: nat, k: nat, j: nat, e: nat)
  {
    i < k < j < e - 1 && e <= |s| &&
    s[i] == '[' && AllSpace(s, i + 1, k) && s[k] == '{' &&
    s[j] == '}' && AllSpace(s, j + 1, e - 1) && s[e - 1] == ']'
  }

  /** `s[i..e]` is what `re.search` returns: a match, no match starts further
      left, and no match from the same `[` has a later `}`. */
  ghost predicate IsSearchResult(s: string, i: nat, e: nat)
  {
    exists k: nat, j: nat :: IsMatch(s, i, k, j, e) &&
      forall i': nat, k': nat, j': nat, e': nat :: IsMatch(s, i', k', j', e') ==> i <= i' && (i' == i ==> j' <= j)
  }

  /** The end of the whitespace run that starts at `p`. */
  function SkipSpaces(s: string, p: nat): (q: nat)
    requires p <= |s|
    ensures p <= q <= |s| && AllSpace(s, p, q)
    ensures q < |s| ==> !IsSpace(s[q])
    decreases |s| - p
  {
    if p < |s| && IsSpace(s[p]) then SkipSpaces(s, p + 1) else p
  }

  /** A whitespace run ended by a non-space character ends where `SkipSpaces` stops. */
  lemma {:induction false} SkipSpacesExact(s: string, p: nat, q: nat)
    requires p <= q < |s| && AllSpace(s, p, q) && !IsSpace(s[q])
    ensures SkipSpaces(s, p) == q
    decreases q - p
  {
    if p < q {
      SkipSpacesExact(s, p + 1, q);
    }
  }

  /** `[` at `i`, then optional whitespace, then `{`. */
  predicate OpensAt(s: string, i: nat)
    requires i < |s|
  {
    s[i] == '[' && SkipSpaces(s, i + 1) < |s| && s[SkipSpaces(s, i + 1)] == '{'
  }

  /** `}` at `j`, then optional whitespace, then `]`. */
  predicate ClosesAt(s: string, j: nat)
    requires j < |s|
  {
    s[j] == '}' && SkipSpaces(s, j + 1) < |s| && s[SkipSpaces(s, j + 1)] == ']'
  }

  /** The leftmost opening at or after `from`. */
  function FirstOpen(s: string, from: nat): (r: Option<nat>)
    requires from <= |s|
    ensures r.Some? ==> from <= r.value < |s| && OpensAt(s, r.value)
    ensures r.Some? ==> forall i :: from <= i < r.value ==> !OpensAt(s, i)
    ensures r.None? ==> forall i :: from <= i < |s| ==> !OpensAt(s, i)
    decreases |s| - from
  {
    if from == |s| then None
    else if OpensAt(s, from) then Some(from)
    else FirstOpen(s, from + 1)
  }

  /** The rightmost closing in `[lo, hi)`. */
  function LastClose(s: string, lo: nat, hi: nat): (r: Option<nat>)
    requires lo <= hi <= |s|
    ensures r.Some? ==> lo <= r.value < hi && ClosesAt(s, r.value)
    ensures r.Some? ==> forall j :: r.value < j < hi ==> !ClosesAt(s, j)
    ensures r.None? ==> forall j :: lo <= j < hi ==> !ClosesAt(s, j)
    decreases hi - lo
  {
    if lo == hi then None
    else if ClosesAt(s, hi - 1) then Some(hi - 1)
    else LastClose(s, lo, hi - 1)
  }

  datatype Span = Span(start: nat, end: nat)

  /** The span of `json_match.group(0)`, or `None` when `re.search` finds nothing. */
  function Search(s: string): (r: Option<Span>)
    ensures r.Some? ==> r.value.start < r.value.end <= |s|
  {
    match FirstOpen(s, 0)
    case None => None
    case Some(i) =>
      var k := SkipSpaces(s, i + 1);
      match LastClose(s, k + 1, |s|)
      case None => None
      case Some(j) => Some(Span(i, SkipSpaces(s, j + 1) + 1))
  }

  /** A match is made of an opening, the `{` its whitespace run stops at, and a
      later closing whose whitespace run stops at the final `]`. */
  lemma MatchParts(s: string, i: nat, k: nat, j: nat, e: nat)
    requires IsMatch(s, i, k, j, e)
    ensures OpensAt(s, i) && k == SkipSpaces(s, i + 1)
    ensures ClosesAt(s, j) && e - 1 == SkipSpaces(s, j + 1)
  {
    SkipSpacesExact(s, i + 1, k);
    SkipSpacesExact(s, j + 1, e - 1);
  }

  /** Conversely, an opening and a later closing form a match. */
  lemma MatchFromParts(s: string, i: nat, j: nat)
    requires i < |s| && OpensAt(s, i) && SkipSpaces(s, i + 1) < j < |s| && ClosesAt(s, j)
    ensures IsMatch(s, i, SkipSpaces(s, i + 1), j, SkipSpaces(s, j + 1) + 1)
  {
    var k := SkipSpaces(s, i + 1);
    var e := SkipSpaces(s, j + 1) + 1;
    assert i < k < j < e - 1 && e <= |s|;
    assert s[i] == '[' && s[k] == '{' && s[j] == '}' && s[e - 1] == ']';
    assert AllSpace(s, i + 1, k) && AllSpace(s, j + 1, e - 1);
  }

  /** What `Search` returns is the match `re.search` reports. */
  lemma SearchSound(s: string)
    requires Search(s).Some?
    ensures IsSearchResult(s, Search(s).value.start, Search(s).value.end)
  {
    var i := FirstOpen(s, 0).value;
    var k := SkipSpaces(s, i + 1);
    var j := LastClose(s, k + 1, |s|).value;
    var e := SkipSpaces(s, j + 1) + 1;
    assert Search(s).value == Span(i, e);
    MatchFromParts(s, i, j);
    forall i': nat, k': nat, j': nat, e': nat | IsMatch(s, i', k', j', e')
      ensures i <= i' && (i' == i ==> j' <= j)
    {
      MatchParts(s, i', k', j', e');
    }
  }

  /** `Search` finds nothing exactly when the pattern matches nowhere in `s`. */
  lemma SearchComplete(s: string)
    ensures Search(s).None? <==> forall i: nat, k: nat, j: nat, e: nat :: !IsMatch(s, i, k, j, e)
  {
    if Search(s).None? {
      forall i: nat, k: nat, j: nat, e: nat | IsMatch(s, i, k, j, e)
        ensures false
      {
        MatchParts(s, i, k, j, e);
      }
    } else {
      SearchSound(s);
    }
  }

  /** The leftmost-then-longest match is unique: two spans that both meet
      `IsSearchResult` are the same span. */
  lemma SearchResultsAgree(s: string, i1: nat, e1: nat, i2: nat, e2: nat)
    requires IsSearchResult(s, i1, e1) && IsSearchResult(s, i2, e2)
    ensures i1 == i2 && e1 == e2
  {
    var k1: nat, j1: nat :| IsMatch(s, i1, k1, j1, e1) &&
      forall i': nat, k': nat, j': nat, e': nat :: IsMatch(s, i', k', j', e') ==> i1 <= i' && (i' == i1 ==> j' <= j1);
    var k2: nat, j2: nat :| IsMatch(s, i2, k2, j2, e2) &&
      forall i': nat, k': nat, j': nat, e': nat :: IsMatch(s, i', k', j', e') ==> i2 <= i' && (i' == i2 ==> j' <= j2);
    assert i1 == i2 && j1 == j2;
    MatchParts(s, i1, k1, j1, e1);
    MatchParts(s, i2, k2, j2, e2);
  }

  /** `re.search` has one answer: any span meeting `IsSearchResult` is the one
      `Search` computes. */
  lemma SearchResultUnique(s: string, i: nat, e: nat)
    requires IsSearchResult(s, i, e)
    ensures Search(s) == Some(Span(i, e))
  {
    SearchComplete(s);
    SearchSound(s);
    SearchResultsAgree(s, i, e, Search(s).value.start, Search(s).value.end);
  }
}
