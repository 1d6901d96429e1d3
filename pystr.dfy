/** The Python `str` built-ins the connection code relies on:
    `strip()` with no argument, `index(sub)` and `sep.join(items)`. */
module PyStr {
  import opened Results

  /** The characters for which Python's `str.isspace()` holds; `strip()` removes exactly these. */
  const WhitespaceChars: set<char> := {
    ' ', '\t', '\n', '\r', '\U{b}', '\U{c}', '\U{1c}', '\U{1d}', '\U{1e}', '\U{1f}',
    '\U{85}', '\U{a0}', '\U{1680}', '\U{2000}', '\U{2001}', '\U{2002}', '\U{2003}', '\U{2004}', '\U{2005}',
    '\U{2006}', '\U{2007}', '\U{2008}', '\U{2009}', '\U{200a}', '\U{2028}', '\U{2029}', '\U{202f}', '\U{205f}', '\U{3000}'}

  predicate IsWhitespace(c: char) {
    c in WhitespaceChars
  }

  /** No whitespace at either end: the shape every `strip()` result has. */
  predicate IsStripped(s: string) {
    s == [] || (!IsWhitespace(s[0]) && !IsWhitespace(s[|s| - 1]))
  }

  /** The index of the first non-whitespace character at or after `i`, or `|s|`. */
  function SkipWhitespace(s: string, i: nat): (k: nat)
    requires i <= |s|
    ensures i <= k <= |s|
    ensures forall j :: i <= j < k ==> IsWhitespace(s[j])
    ensures k < |s| ==> !IsWhitespace(s[k])
    decreases |s| - i
  {
    if i < |s| && IsWhitespace(s[i]) then SkipWhitespace(s, i + 1) else i
  }

  /** The end of `s[lo..hi]` once its trailing whitespace is dropped. */
  function SkipWhitespaceBack(s: string, lo: nat, hi: nat): (k: nat)
    requires lo <= hi <= |s|
    ensures lo <= k <= hi
    ensures forall j :: k <= j < hi ==> IsWhitespace(s[j])
    ensures k > lo ==> !IsWhitespace(s[k - 1])
    decreases hi
  {
    if hi > lo && IsWhitespace(s[hi - 1]) then SkipWhitespaceBack(s, lo, hi - 1) else hi
  }

  /** Where `s.strip()` starts in `s`. */
  function StripStart(s: string): (lo: nat)
    ensures lo <= |s|
  {
    SkipWhitespace(s, 0)
  }

  /** `s.strip()`: the factor of `s` left once the whitespace at both ends is cut. */
  function Strip(s: string): (r: string)
    ensures IsStripped(r)
    ensures StripStart(s) + |r| <= |s| && r == s[StripStart(s)..StripStart(s) + |r|]
    ensures forall j :: 0 <= j < StripStart(s) ==> IsWhitespace(s[j])
    ensures forall j :: StripStart(s) + |r| <= j < |s| ==> IsWhitespace(s[j])
    ensures r == [] <==> forall j :: 0 <= j < |s| ==> IsWhitespace(s[j])
  {
    var lo := StripStart(s);
    s[lo..SkipWhitespaceBack(s, lo, |s|)]
  }

  /** `m` occurs in `s` starting at index `i`. */
  predicate OccursAt(s: string, m: string, i: int) {
    0 <= i && i + |m| <= |s| && s[i..i + |m|] == m
  }

  ghost predicate Contains(s: string, m: string) {
    exists i :: OccursAt(s, m, i)
  }

  /** `i` is where `s.index(m)` points: the first occurrence. */
  ghost predicate FirstOccurrence(s: string, m: string, i: int) {
    OccursAt(s, m, i) && forall j :: 0 <= j < i ==> !OccursAt(s, m, j)
  }

  /** The first occurrence of `m` at or after `start`, or None. */
  function IndexFrom(s: string, m: string, start: nat): (r: Option<nat>)
    ensures r.Some? ==> start <= r.value && OccursAt(s, m, r.value)
    ensures r.Some? ==> forall j :: start <= j < r.value ==> !OccursAt(s, m, j)
    ensures r.None? ==> forall j :: start <= j ==> !OccursAt(s, m, j)
    decreases |s| + 1 - start
  {
    if start + |m| > |s| then None
    else if s[start..start + |m|] == m then Some(start)
    else IndexFrom(s, m, start + 1)
  }

  /** `s.index(m)`; None stands for the ValueError raised when `m` does not occur.
      An empty `m` is found at 0, as in Python. */
  function IndexOf(s: string, m: string): (r: Option<nat>)
    ensures r.Some? <==> Contains(s, m)
    ensures r.Some? ==> FirstOccurrence(s, m, r.value)
  {
    IndexFrom(s, m, 0)
  }

  /** The first occurrence is unique, so `index` is determined by it. */
  lemma IndexOfFirst(s: string, m: string, i: int)
    requires FirstOccurrence(s, m, i)
    ensures IndexOf(s, m) == Some(i)
  {
  }

  /** A factor `s[lo..hi]` contains `m` only where `s` does. */
  lemma OccurrenceInFactor(s: string, m: string, lo: nat, hi: nat, j: int)
    requires lo <= hi <= |s|
    requires OccursAt(s[lo..hi], m, j)
    ensures OccursAt(s, m, lo + j) && lo + j + |m| <= hi
  {
    forall k | 0 <= k < |m|
      ensures m[k] == s[lo + j + k]
    {
      assert m[k] == s[lo..hi][j + k];
    }
    assert s[lo + j..lo + j + |m|] == m;
  }

  /** A factor of a text without `m` has no `m` either. */
  lemma NoOccurrenceInFactor(s: string, m: string, lo: nat, hi: nat)
    requires lo <= hi <= |s| && !Contains(s, m)
    ensures !Contains(s[lo..hi], m)
  {
    if Contains(s[lo..hi], m) {
      var j :| OccursAt(s[lo..hi], m, j);
      OccurrenceInFactor(s, m, lo, hi, j);
      assert false;
    }
  }

  /** A factor of `s` that ends before the first occurrence of a non-empty `m` does not contain `m`. */
  lemma NoOccurrenceBefore(s: string, m: string, i: nat, lo: nat, hi: nat)
    requires |m| > 0 && FirstOccurrence(s, m, i)
    requires lo <= hi <= i
    ensures !Contains(s[lo..hi], m)
  {
    if Contains(s[lo..hi], m) {
      var j :| OccursAt(s[lo..hi], m, j);
      OccurrenceInFactor(s, m, lo, hi, j);
      assert false;
    }
  }

  /** `sep.join(items)`. */
  function Join(sep: string, items: seq<string>): (r: string)
    ensures |items| == 0 ==> r == ""
    ensures |items| > 0 ==> items[0] <= r
    ensures |items| > 0 ==> |items[|items| - 1]| <= |r| && r[|r| - |items[|items| - 1]|..] == items[|items| - 1]
  {
    if |items| == 0 then ""
    else if |items| == 1 then items[0]
    else items[0] + sep + Join(sep, items[1..])
  }

  function TotalLength(items: seq<string>): (n: nat)
  {
    if |items| == 0 then 0 else |items[0]| + TotalLength(items[1..])
  }

  /** Joining one more item appends the separator and that item. */
  lemma {:induction false} JoinSnoc(sep: string, items: seq<string>, last: string)
    requires |items| > 0
    ensures Join(sep, items + [last]) == Join(sep, items) + sep + last
  {
    if |items| == 1 {
      assert items + [last] == [items[0], last];
    } else {
      assert (items + [last])[1..] == items[1..] + [last];
      JoinSnoc(sep, items[1..], last);
    }
  }

  /** The joined text holds every item and one separator between each two neighbours. */
  lemma {:induction false} JoinLength(sep: string, items: seq<string>)
    requires |items| > 0
    ensures |Join(sep, items)| == TotalLength(items) + (|items| - 1) * |sep|
  {
    if |items| > 1 {
      var rest := items[1..];
      JoinLength(sep, rest);
      assert Join(sep, items) == items[0] + sep + Join(sep, rest);
      assert TotalLength(items) == |items[0]| + TotalLength(rest);
    }
  }
}
