/** The JavaScript string operations the permission handler relies on,
    over `seq<char>`: `includes`, a literal regular-expression `test`,
    `replace` with a string pattern (first occurrence only), and `replace`
    with a regular expression of the form `^.*p` for a literal `p`. */
module JsStrings {
  import opened Wrappers

  /** `p` occurs in `s` starting at index `i`. */
  predicate OccursAt(s: string, p: string, i: int) {
    0 <= i && i + |p| <= |s| && s[i..i + |p|] == p
  }

  /** `s.includes(p)`; also `/p/.test(s)` when the regular expression is a
      plain literal with no anchors. */
  predicate Contains(s: string, p: string) {
    exists i | 0 <= i <= |s| :: OccursAt(s, p, i)
  }

  /** An occurrence fixes the characters it covers. */
  lemma OccurrenceChar(s: string, p: string, i: int, d: int)
    ensures OccursAt(s, p, i) && 0 <= d < |p| ==> s[i + d] == p[d]
  {
    if OccursAt(s, p, i) && 0 <= d < |p| {
      assert s[i..i + |p|][d] == s[i + d];
    }
  }

  /** A pattern with a character `s` lacks does not occur in `s`. */
  lemma MissingCharRulesOut(s: string, p: string, d: int)
    requires 0 <= d < |p| && p[d] !in s
    ensures !Contains(s, p)
  {
    forall i | OccursAt(s, p, i)
      ensures false
    {
    }
  }

  /** `i` is where `s.indexOf(p)` points: the leftmost occurrence. */
  predicate IsFirstOccurrence(s: string, p: string, i: int) {
    OccursAt(s, p, i) && forall j :: 0 <= j < i ==> !OccursAt(s, p, j)
  }

  /** The leftmost occurrence of `p` in `s` at or after `k`. */
  function IndexOfFrom(s: string, p: string, k: nat): (r: Option<nat>)
    ensures r.Some? ==> k <= r.value && OccursAt(s, p, r.value)
    ensures r.Some? ==> forall j :: k <= j < r.value ==> !OccursAt(s, p, j)
    ensures r.None? ==> forall j :: k <= j ==> !OccursAt(s, p, j)
    decreases |s| - k
  {
    if k + |p| > |s| then None
    else if s[k..k + |p|] == p then Some(k)
    else IndexOfFrom(s, p, k + 1)
  }

  /** `s.indexOf(p)`, with `None` for JavaScript's -1. */
  function IndexOf(s: string, p: string): (r: Option<nat>)
    ensures r.Some? ==> IsFirstOccurrence(s, p, r.value)
    ensures r.None? <==> !Contains(s, p)
  {
    IndexOfFrom(s, p, 0)
  }

  /** `s.replace(p, rep)` for a string pattern `p` and a replacement
      without `$` substitutions: only the first occurrence is replaced. */
  function ReplaceFirst(s: string, p: string, rep: string): (r: string)
    ensures !Contains(s, p) ==> r == s
    ensures forall i :: IsFirstOccurrence(s, p, i) ==> r == s[..i] + rep + s[i + |p|..]
  {
    match IndexOf(s, p)
    case None => s
    case Some(i) =>
      assert forall j :: IsFirstOccurrence(s, p, j) ==> j == i;
      s[..i] + rep + s[i + |p|..]
  }

  /** The characters a regular-expression `.` does not match. */
  predicate IsLineTerminator(c: char) {
    c == '\n' || c == '\r' || c == '\U{2028}' || c == '\U{2029}'
  }

  predicate NoLineTerminator(t: string) {
    forall i :: 0 <= i < |t| ==> !IsLineTerminator(t[i])
  }

  /** `^.*p` matches the prefix `s[..k + |p|]`: `p` occurs at `k` and the
      text before it can be consumed by `.*`. */
  predicate LeadingMatchAt(s: string, p: string, k: int) {
    OccursAt(s, p, k) && NoLineTerminator(s[..k])
  }

  /** `k` is the match the greedy `.*` settles on: the last one. */
  ghost predicate IsLastLeadingMatch(s: string, p: string, k: int) {
    LeadingMatchAt(s, p, k) && forall j :: k < j ==> !LeadingMatchAt(s, p, j)
  }

  /** The last leading match of `p` in `s` at or before `k`. */
  function LastLeadingMatchUpTo(s: string, p: string, k: int): (r: Option<nat>)
    ensures r.Some? ==> r.value <= k && LeadingMatchAt(s, p, r.value)
    ensures r.Some? ==> forall j :: r.value < j <= k ==> !LeadingMatchAt(s, p, j)
    ensures r.None? ==> forall j :: j <= k ==> !LeadingMatchAt(s, p, j)
    decreases k + 1
  {
    if k < 0 then None
    else if LeadingMatchAt(s, p, k) then Some(k)
    else LastLeadingMatchUpTo(s, p, k - 1)
  }

  /** `s.replace(/^.*p/, '')` for a literal `p` and no flags: removes
      everything up to and including the last occurrence of `p` that is
      preceded only by non-line-terminator characters; unchanged when
      there is none. */
  function StripThroughLast(s: string, p: string): (r: string)
    ensures (forall k :: !LeadingMatchAt(s, p, k)) ==> r == s
    ensures forall k :: IsLastLeadingMatch(s, p, k) ==> r == s[k + |p|..]
  {
    match LastLeadingMatchUpTo(s, p, |s|)
    case None => s
    case Some(k) =>
      assert forall j :: |s| < j ==> !OccursAt(s, p, j);
      assert forall j :: IsLastLeadingMatch(s, p, j) ==> j == k;
      s[k + |p|..]
  }
}
