/**
 * String operations the handlers borrow from Python: `str.strip()`, `sep.join(parts)`,
 * the markup-removing substitution `re.sub(r"<\|.*?\|>", "", s)`, and the in-line
 * literal search that the lazy `.*?` of a regular expression performs.
 */
module Text {
  import opened Wrappers

  /** Python truthiness of an optional string: present and non-empty. */
  predicate Truthy(v: Option<string>) {
    v.Some? && v.value != ""
  }

  /** Python's `str.isspace()` for one code point (the Unicode White_Space set plus the
      ASCII information separators 0x1C-0x1F). */
  predicate IsSpace(c: char) {
    c == ' ' || ('\t' <= c <= '\r') || ('\U{1c}' <= c <= '\U{1f}') || c == '\U{85}' || c == '\U{a0}'
    || c == '\U{1680}' || ('\U{2000}' <= c <= '\U{200a}') || c == '\U{2028}' || c == '\U{2029}'
    || c == '\U{202f}' || c == '\U{205f}' || c == '\U{3000}'
  }

  predicate AllSpace(s: string) {
    forall i :: 0 <= i < |s| ==> IsSpace(s[i])
  }

  /** The first index at or after `j` that does not hold white space (what `\s*` skips). */
  function SkipSpace(s: string, j: nat): (r: nat)
    requires j <= |s|
    decreases |s| - j
    ensures j <= r <= |s| && (r == |s| || !IsSpace(s[r]))
    ensures forall m :: j <= m < r ==> IsSpace(s[m])
  {
    if j < |s| && IsSpace(s[j]) then SkipSpace(s, j + 1) else j
  }

  /** The index after the last character of `s[lo..j]` that is not white space, or `lo`. */
  function SkipSpaceBack(s: string, lo: nat, j: nat): (r: nat)
    requires lo <= j <= |s|
    decreases j
    ensures lo <= r <= j && (r == lo || !IsSpace(s[r - 1]))
    ensures forall m :: r <= m < j ==> IsSpace(s[m])
  {
    if lo < j && IsSpace(s[j - 1]) then SkipSpaceBack(s, lo, j - 1) else j
  }

  /** `s.strip()`: `s` without its leading and trailing white space. */
  function Strip(s: string): (r: string)
    ensures |r| <= |s|
    ensures r == [] || (!IsSpace(r[0]) && !IsSpace(r[|r| - 1]))
  {
    var a := SkipSpace(s, 0);
    var b := SkipSpaceBack(s, a, |s|);
    assert b > a ==> s[a..b][0] == s[a] && s[a..b][b - a - 1] == s[b - 1];
    s[a..b]
  }

  /** The stripped text is a contiguous piece of `s`, everything cut away on either side being white space. */
  lemma StripIsTrimmedPiece(s: string)
    ensures exists a :: 0 <= a && a + |Strip(s)| <= |s| && Strip(s) == s[a..a + |Strip(s)|]
                        && AllSpace(s[..a]) && AllSpace(s[a + |Strip(s)|..])
  {
    var a := SkipSpace(s, 0);
    var b := SkipSpaceBack(s, a, |s|);
    var r := Strip(s);
    assert r == s[a..b] && a + |r| == b;
    AllSpacePrefix(s, a);
    AllSpaceSuffix(s, b);
    assert r == s[a..a + |r|] && AllSpace(s[..a]) && AllSpace(s[a + |r|..]);
  }

  lemma AllSpacePrefix(s: string, a: nat)
    requires a <= |s| && forall m :: 0 <= m < a ==> IsSpace(s[m])
    ensures AllSpace(s[..a])
  {
  }

  lemma AllSpaceSuffix(s: string, b: nat)
    requires b <= |s| && forall m :: b <= m < |s| ==> IsSpace(s[m])
    ensures AllSpace(s[b..])
  {
    forall i | 0 <= i < |s[b..]| ensures IsSpace(s[b..][i]) {
      assert s[b..][i] == s[b + i];
    }
  }

  /** Stripping leaves nothing exactly when the string is all white space. */
  lemma StripEmptyIff(s: string)
    ensures Strip(s) == [] <==> AllSpace(s)
  {
    var r := Strip(s);
    StripIsTrimmedPiece(s);
    if r == [] {
      var a :| 0 <= a && a + |r| <= |s| && r == s[a..a + |r|] && AllSpace(s[..a]) && AllSpace(s[a + |r|..]);
      forall i | 0 <= i < |s| ensures IsSpace(s[i]) {
        if i < a { assert s[..a][i] == s[i]; } else { assert s[a..][i - a] == s[i]; }
      }
    }
  }

  /** `s` holds the literal `p` at position `i`. */
  predicate StartsAt(s: string, i: nat, p: string) {
    i + |p| <= |s| && s[i..i + |p|] == p
  }

  /**
   * The first position `k >= j` where the literal `p` occurs, with no line break in
   * `s[j..k]`: what a lazy `.*?` followed by `p` finds, since `.` does not match '\n'.
   */
  function FindInLine(s: string, p: string, j: nat): (r: Option<nat>)
    requires j <= |s|
    decreases |s| - j
    ensures r.Some? ==> j <= r.value && StartsAt(s, r.value, p)
    ensures r.Some? ==> forall k :: j <= k < r.value ==> s[k] != '\n' && !StartsAt(s, k, p)
    ensures r.None? ==> forall k :: j <= k <= |s| && StartsAt(s, k, p) ==> exists m :: j <= m < k && s[m] == '\n'
  {
    if StartsAt(s, j, p) then Some(j)
    else if j == |s| || s[j] == '\n' then None
    else FindInLine(s, p, j + 1)
  }

  /**
   * The scan of `re.search`: given what a pattern matches at each start position, the
   * first match at or after `i`.
   */
  function FirstMatch(ms: seq<Option<string>>, i: nat): (r: Option<string>)
    requires i <= |ms|
    decreases |ms| - i
    ensures r.Some? ==> exists k :: i <= k < |ms| && ms[k] == r && forall j :: i <= j < k ==> ms[j].None?
    ensures r.None? ==> forall k :: i <= k < |ms| ==> ms[k].None?
  {
    if i == |ms| then None else if ms[i].Some? then ms[i] else FirstMatch(ms, i + 1)
  }

  /** End (exclusive) of a `<|...|>` token starting at `i`, if one does. */
  function MarkupEnd(s: string, i: nat): (r: Option<nat>)
    requires i <= |s|
    ensures r.Some? ==> i + 4 <= r.value <= |s|
  {
    if StartsAt(s, i, "<|") then
      match FindInLine(s, "|>", i + 2)
      case Some(k) => Some(k + 2)
      case None => None
    else None
  }

  /**
   * `re.sub(r"<\|.*?\|>", "", s[i..])`: scanning left to right, every `<|` that is closed
   * by a `|>` later on the same line is removed together with the shortest such tail.
   */
  function StripMarkupFrom(s: string, i: nat): (r: string)
    requires i <= |s|
    decreases |s| - i
    ensures |r| <= |s| - i
    ensures multiset(r) <= multiset(s[i..])
  {
    if i == |s| then ""
    else match MarkupEnd(s, i)
      case Some(e) =>
        MultisetSplit(s, i, e);
        StripMarkupFrom(s, e)
      case None =>
        var rest := StripMarkupFrom(s, i + 1);
        MultisetSplit(s, i, i + 1);
        assert s[i..i + 1] == [s[i]];
        [s[i]] + rest
  }

  lemma MultisetSplit(s: string, i: nat, e: nat)
    requires i <= e <= |s|
    ensures multiset(s[i..]) == multiset(s[i..e]) + multiset(s[e..])
  {
    assert s[i..] == s[i..e] + s[e..];
  }

  function StripMarkup(s: string): (r: string)
    ensures |r| <= |s|
    ensures multiset(r) <= multiset(s)
  {
    assert s[0..] == s;
    StripMarkupFrom(s, 0)
  }

  /** No `<|` anywhere from position `i` on: no '<' is followed by '|'. */
  predicate NoMarkupOpenFrom(s: string, i: nat) {
    forall k :: i <= k && k + 1 < |s| ==> !(s[k] == '<' && s[k + 1] == '|')
  }

  /** Text that holds no `<|` comes through the substitution unchanged. */
  lemma {:induction false} StripMarkupNoOpen(s: string, i: nat)
    requires i <= |s| && NoMarkupOpenFrom(s, i)
    ensures StripMarkupFrom(s, i) == s[i..]
    decreases |s| - i
  {
    if i < |s| {
      StripMarkupStep(s, i);
      StripMarkupNoOpen(s, i + 1);
      assert s[i..] == [s[i]] + s[i + 1..];
    }
  }

  /** A character that does not open `<|` is kept. */
  lemma StripMarkupStep(s: string, i: nat)
    requires i < |s| && !(i + 1 < |s| && s[i] == '<' && s[i + 1] == '|')
    ensures StripMarkupFrom(s, i) == [s[i]] + StripMarkupFrom(s, i + 1)
  {
    if i + 1 < |s| {
      assert s[i..i + 2][0] == s[i] && s[i..i + 2][1] == s[i + 1];
    }
    assert MarkupEnd(s, i).None?;
  }

  /** `sep.join(parts)`. */
  function Join(parts: seq<string>, sep: string): string
  {
    if |parts| == 0 then ""
    else if |parts| == 1 then parts[0]
    else parts[0] + sep + Join(parts[1..], sep)
  }

  /** Joining one more part onto a non-empty list puts the separator before it. */
  lemma {:induction false} JoinSnoc(parts: seq<string>, last: string, sep: string)
    requires |parts| > 0
    ensures Join(parts + [last], sep) == Join(parts, sep) + sep + last
  {
    if |parts| == 1 {
      assert (parts + [last])[1..] == [last];
    } else {
      assert (parts + [last])[1..] == parts[1..] + [last];
      JoinSnoc(parts[1..], last, sep);
    }
  }

  /** With a non-empty separator, the join is empty exactly when there is nothing to join
      but (at most) one empty part. */
  lemma {:induction false} JoinEmptyIff(parts: seq<string>, sep: string)
    requires sep != []
    ensures Join(parts, sep) == [] <==> |parts| == 0 || (|parts| == 1 && parts[0] == [])
  {
    if |parts| > 1 {
      assert |Join(parts, sep)| >= |sep|;
    }
  }

  /** A joined list starts with its first part. */
  lemma {:induction false} JoinStartsWithFirst(parts: seq<string>, sep: string)
    requires |parts| > 0
    ensures StartsAt(Join(parts, sep), 0, parts[0])
  {
    var j := Join(parts, sep);
    if |parts| > 1 {
      assert j == parts[0] + (sep + Join(parts[1..], sep));
      assert j[..|parts[0]|] == parts[0];
    }
  }

  /** The non-empty items of `xs`, in their order: what a loop keeps when it skips empty ones. */
  function NonEmpty<T(==,!new)>(xs: seq<seq<T>>): (r: seq<seq<T>>)
    ensures |r| <= |xs|
    ensures forall x :: x in r <==> x in xs && |x| > 0
  {
    if |xs| == 0 then []
    else
      var r := (if |xs[0]| > 0 then [xs[0]] else []) + NonEmpty(xs[1..]);
      assert forall x :: x in xs <==> x == xs[0] || x in xs[1..];
      r
  }

  /** The first entry, when non-empty, followed by the non-empty rest. */
  lemma NonEmptyStep<T(!new)>(pre: seq<seq<T>>, xs: seq<seq<T>>)
    requires |xs| > 0
    ensures pre + NonEmpty(xs) == pre + (if |xs[0]| == 0 then [] else [xs[0]]) + NonEmpty(xs[1..])
  {
    var head := if |xs[0]| == 0 then [] else [xs[0]];
    assert NonEmpty(xs) == head + NonEmpty(xs[1..]);
    AppendAssoc(pre, head, NonEmpty(xs[1..]));
  }

  lemma AppendAssoc<T>(a: seq<T>, b: seq<T>, c: seq<T>)
    ensures a + (b + c) == a + b + c
  {
    forall i | 0 <= i < |a| + |b| + |c| ensures (a + (b + c))[i] == (a + b + c)[i] {
      if i < |a| + |b| { assert (a + b + c)[i] == (a + b)[i]; }
    }
  }

  /** The concatenation of a list of strings. */
  function Concat(parts: seq<string>): string
  {
    if |parts| == 0 then "" else parts[0] + Concat(parts[1..])
  }

  lemma {:induction false} ConcatAppend(a: seq<string>, b: seq<string>)
    ensures Concat(a + b) == Concat(a) + Concat(b)
  {
    if |a| == 0 {
      assert a + b == b;
    } else {
      assert (a + b)[1..] == a[1..] + b;
      ConcatAppend(a[1..], b);
    }
  }
}
