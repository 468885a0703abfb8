/**
 * The assessment-report formatter: every assessment item whose report text names the
 * group the student falls in ("处于…群体") is filed under one of three fixed categories,
 * and the report lists, per non-empty category in a fixed order, the sorted,
 * duplicate-free item names.
 */
module Survey {
  import opened Wrappers
  import opened Text
  import opened Lex

  /** One assessment record from the report service, with string-valued fields. */
  type SurveyItem = map<string, string>

  const FocusGroup: string := "重点关注"
  const WatchGroup: string := "一般关注"
  const HealthyGroup: string := "健康"
  /** The categories, in the order the report lists them. */
  const Categories: seq<string> := [FocusGroup, WatchGroup, HealthyGroup]

  /** Literal pieces of the two group-extraction patterns. */
  const ReportLead: string := "根据学校量表测评结果，该学生"
  const SituationLead: string := "情况，处于"
  const GroupLead: string := "处于"
  const GroupTail: string := "群体"

  /** The two patterns tried on an item's report text. */
  datatype Pattern =
    | Primary   // A\.\s*根据学校量表测评结果，该学生.*?情况，处于(.*?)群体
    | Fallback  // 处于(.*?)群体

  /**
   * The captured group when `p` matches starting exactly at `i`. For the primary
   * pattern the first `情况，处于` on the line is the only one worth trying: a later one
   * on the same line sees a shorter rest of that line and cannot find a `群体` the
   * first one missed.
   */
  function MatchAt(p: Pattern, s: string, i: nat): Option<string>
    requires i <= |s|
  {
    match p
    case Primary => (
      match LeadEnd(s, i)
      case None => None
      case Some(j) => SituationGroup(s, j))
    case Fallback =>
      if !StartsAt(s, i, GroupLead) then None
      else (
        match FindInLine(s, GroupTail, i + |GroupLead|)
        case None => None
        case Some(q) => Some(s[i + |GroupLead|..q]))
  }

  /** `A\.\s*根据学校量表测评结果，该学生` at `i`: the position after it. */
  function LeadEnd(s: string, i: nat): (r: Option<nat>)
    requires i <= |s|
    ensures r.Some? ==> i < r.value <= |s|
  {
    if !StartsAt(s, i, "A.") then None
    else
      var j := SkipSpace(s, i + 2);
      if !StartsAt(s, j, ReportLead) then None
      else Some(j + |ReportLead|)
  }

  /** `.*?情况，处于(.*?)群体` from `j`: the group after the first `情况，处于` on the line. */
  function SituationGroup(s: string, j: nat): Option<string>
    requires j <= |s|
  {
    match FindInLine(s, SituationLead, j)
    case None => None
    case Some(k) =>
      match FindInLine(s, GroupTail, k + |SituationLead|)
      case None => None
      case Some(q) => Some(s[k + |SituationLead|..q])
  }

  /** What `p` captures at each start position of `s`, the end included. */
  function MatchesOf(p: Pattern, s: string): (r: seq<Option<string>>)
    ensures |r| == |s| + 1
    ensures forall k :: 0 <= k <= |s| ==> r[k] == MatchAt(p, s, k)
  {
    seq(|s| + 1, k requires 0 <= k <= |s| => MatchAt(p, s, k))
  }

  /** `re.search(p, s[i..])`: the group of the leftmost match. */
  function Search(p: Pattern, s: string, i: nat): (r: Option<string>)
    requires i <= |s|
    ensures r.Some? ==> exists k :: i <= k <= |s| && MatchAt(p, s, k) == r
                                    && forall j :: i <= j < k ==> MatchAt(p, s, j).None?
    ensures r.None? ==> forall k :: i <= k <= |s| ==> MatchAt(p, s, k).None?
  {
    var ms := MatchesOf(p, s);
    var r := FirstMatch(ms, i);
    assert r.Some? ==> exists k :: i <= k < |ms| && ms[k] == r && forall j :: i <= j < k ==> ms[j].None?;
    r
  }

  /** The group named by a report text, stripped: the primary pattern first, then the fallback. */
  function ExtractGroup(value: string): Option<string>
  {
    match Search(Primary, value, 0)
    case Some(g) => Some(Strip(g))
    case None =>
      match Search(Fallback, value, 0)
      case Some(g) => Some(Strip(g))
      case None => None
  }

  /** `处于` at `k`, and the next `群体` on the same line at `q`. */
  predicate GroupBetween(s: string, k: nat, q: nat) {
    StartsAt(s, k, GroupLead) && k + |GroupLead| <= q && StartsAt(s, q, GroupTail)
    && forall m :: k + |GroupLead| <= m < q ==> s[m] != '\n'
  }

  /** `情况，处于` holds `处于` three characters in. */
  lemma SituationLeadEndsWithGroupLead(s: string, k: nat)
    requires StartsAt(s, k, SituationLead)
    ensures StartsAt(s, k + 3, GroupLead)
  {
    assert s[k + 3..k + 5] == s[k..k + 5][3..5];
  }

  lemma SituationGroupShape(s: string, j: nat)
    requires j <= |s| && SituationGroup(s, j).Some?
    ensures exists k: nat, q: nat :: GroupBetween(s, k, q) && SituationGroup(s, j).value == s[k + |GroupLead|..q]
  {
    var k := FindInLine(s, SituationLead, j).value;
    var q := FindInLine(s, GroupTail, k + |SituationLead|).value;
    SituationLeadEndsWithGroupLead(s, k);
    GroupBetweenWitness(s, k + 3, q, SituationGroup(s, j).value);
  }

  lemma PrimaryMatchShape(s: string, i: nat)
    requires i <= |s| && MatchAt(Primary, s, i).Some?
    ensures exists k: nat, q: nat :: GroupBetween(s, k, q) && MatchAt(Primary, s, i).value == s[k + |GroupLead|..q]
  {
    SituationGroupShape(s, LeadEnd(s, i).value);
  }

  lemma GroupBetweenWitness(s: string, k: nat, q: nat, g: string)
    requires StartsAt(s, k, GroupLead) && k + |GroupLead| <= q && StartsAt(s, q, GroupTail)
    requires forall m :: k + |GroupLead| <= m < q ==> s[m] != '\n'
    requires g == s[k + |GroupLead|..q]
    ensures exists k': nat, q': nat :: GroupBetween(s, k', q') && g == s[k' + |GroupLead|..q']
  {
    assert GroupBetween(s, k, q);
  }

  lemma MatchAtShape(p: Pattern, s: string, i: nat)
    requires i <= |s| && MatchAt(p, s, i).Some?
    ensures exists k: nat, q: nat :: GroupBetween(s, k, q) && MatchAt(p, s, i).value == s[k + |GroupLead|..q]
  {
    match p
    case Primary =>
      PrimaryMatchShape(s, i);
    case Fallback =>
      var q := FindInLine(s, GroupTail, i + |GroupLead|).value;
      assert GroupBetween(s, i, q);
  }

  /** Some `处于` is followed by `群体` on the same line. */
  ghost predicate HasGroupPhrase(v: string) {
    exists k: nat, q: nat :: GroupBetween(v, k, q)
  }

  /** Whatever group is extracted is the stripped text between a `处于` and the next `群体` on its line. */
  lemma ExtractedGroupIsBetween(v: string)
    requires ExtractGroup(v).Some?
    ensures exists k: nat, q: nat :: GroupBetween(v, k, q) && ExtractGroup(v).value == Strip(v[k + |GroupLead|..q])
  {
    var prim := Search(Primary, v, 0);
    var p := if prim.Some? then Primary else Fallback;
    var i :| 0 <= i <= |v| && MatchAt(p, v, i) == Search(p, v, 0);
    MatchAtShape(p, v, i);
  }

  /** Where the fallback pattern does not match, no `处于` there has a `群体` on its line. */
  lemma NoFallbackNoPhrase(v: string, k: nat)
    requires k <= |v| && MatchAt(Fallback, v, k).None?
    ensures forall q: nat :: !GroupBetween(v, k, q)
  {
    if StartsAt(v, k, GroupLead) {
      forall q: nat | k + |GroupLead| <= q && StartsAt(v, q, GroupTail)
        ensures exists m :: k + |GroupLead| <= m < q && v[m] == '\n'
      {
      }
    }
  }

  /**
   * The fallback search finds the first `处于` that has a `群体` on its line, and captures
   * up to the nearest such `群体`.
   */
  lemma FallbackLeftmost(v: string)
    requires Search(Fallback, v, 0).Some?
    ensures
      exists k: nat, q: nat :: GroupBetween(v, k, q) && Search(Fallback, v, 0).value == v[k + |GroupLead|..q]
        && (forall k': nat, q': nat :: k' < k ==> !GroupBetween(v, k', q'))
        && (forall q': nat :: q' < q ==> !GroupBetween(v, k, q'))
  {
    var r := Search(Fallback, v, 0);
    var k :| 0 <= k <= |v| && MatchAt(Fallback, v, k) == r && forall j :: 0 <= j < k ==> MatchAt(Fallback, v, j).None?;
    FallbackMatchShape(v, k);
    var q := FindInLine(v, GroupTail, k + |GroupLead|).value;
    forall k': nat, q': nat | k' < k ensures !GroupBetween(v, k', q') {
      NoFallbackNoPhrase(v, k');
    }
    assert GroupBetween(v, k, q) && r.value == v[k + |GroupLead|..q];
  }

  /** A fallback match at `k` captures up to the nearest `群体` on the line, and no nearer one exists. */
  lemma FallbackMatchShape(v: string, k: nat)
    requires k <= |v| && MatchAt(Fallback, v, k).Some?
    ensures StartsAt(v, k, GroupLead) && FindInLine(v, GroupTail, k + |GroupLead|).Some?
    ensures var q := FindInLine(v, GroupTail, k + |GroupLead|).value;
      && GroupBetween(v, k, q) && MatchAt(Fallback, v, k).value == v[k + |GroupLead|..q]
      && forall q': nat :: q' < q ==> !GroupBetween(v, k, q')
  {
  }

  /**
   * `re.search` keeps the first match: a primary match anywhere wins over the fallback,
   * and otherwise the group comes from the first `处于` that has a `群体` on its line,
   * ending at the nearest such `群体`.
   */
  lemma ExtractGroupLeftmost(v: string)
    ensures Search(Primary, v, 0).Some? ==> ExtractGroup(v) == Some(Strip(Search(Primary, v, 0).value))
    ensures Search(Primary, v, 0).None? && ExtractGroup(v).Some? ==>
      exists k: nat, q: nat :: GroupBetween(v, k, q) && ExtractGroup(v).value == Strip(v[k + |GroupLead|..q])
        && (forall k': nat, q': nat :: k' < k ==> !GroupBetween(v, k', q'))
        && (forall q': nat :: q' < q ==> !GroupBetween(v, k, q'))
  {
    if Search(Primary, v, 0).None? && ExtractGroup(v).Some? {
      FallbackLeftmost(v);
    }
  }

  /** Every text holding a group phrase yields a group: the fallback catches what the primary misses. */
  lemma GroupPhraseYieldsGroup(v: string)
    requires HasGroupPhrase(v)
    ensures ExtractGroup(v).Some?
  {
    var k: nat, q: nat :| GroupBetween(v, k, q);
    var found := FindInLine(v, GroupTail, k + |GroupLead|);
    assert found.Some?;
    assert MatchAt(Fallback, v, k).Some?;
  }

  /**
   * A report text yields a group exactly when some `处于` is followed by `群体` on the
   * same line.
   */
  lemma ExtractGroupIff(v: string)
    ensures ExtractGroup(v).Some? <==> HasGroupPhrase(v)
  {
    if ExtractGroup(v).Some? {
      ExtractedGroupIsBetween(v);
    }
    if HasGroupPhrase(v) {
      GroupPhraseYieldsGroup(v);
    }
  }

  /** The item's name and extracted group, when it has both fields and its report names a group. */
  function Classify(item: SurveyItem): Option<(string, string)>
  {
    if "name" !in item || "value" !in item then None
    else match ExtractGroup(item["value"])
      case Some(g) => Some((item["name"], g))
      case None => None
  }

  /** Some item of `items` files the name `n` under the group `c`. */
  predicate Listed(items: seq<SurveyItem>, n: string, c: string) {
    exists it :: it in items && Classify(it) == Some((n, c))
  }

  /** The names filed under `c`, in item order, possibly repeated. */
  function Names(items: seq<SurveyItem>, c: string): (r: seq<string>)
    ensures forall n :: n in r <==> Listed(items, n, c)
  {
    if |items| == 0 then []
    else
      var head := match Classify(items[0]) case Some((n, g)) => if g == c then [n] else [] case None => [];
      var r := head + Names(items[1..], c);
      assert items == [items[0]] + items[1..];
      assert forall it :: it in items <==> it == items[0] || it in items[1..];
      r
  }

  /** The names of category `c`, sorted and without duplicates. */
  function CategoryNames(items: seq<SurveyItem>, c: string): (r: seq<string>)
    ensures StrictlySorted(r)
    ensures forall n :: n in r <==> Listed(items, n, c)
  {
    var r := SortedSet(Names(items, c));
    assert forall n :: n in r <==> n in Elems(r);
    r
  }

  /** One report line, `category: a, b`. */
  function CategoryLine(c: string, names: seq<string>): string
  {
    c + ": " + Join(names, ", ")
  }

  /** The line of category `c`, or nothing when the category is empty. */
  function LineIfAny(items: seq<SurveyItem>, c: string): (r: seq<string>)
    ensures |r| <= 1 && forall l :: l in r ==> l != []
    ensures |r| == 1 <==> CategoryNames(items, c) != []
  {
    var names := CategoryNames(items, c);
    if |names| == 0 then [] else [CategoryLine(c, names)]
  }

  /** The report lines, categories in their fixed order. */
  function SurveyLines(items: seq<SurveyItem>): (r: seq<string>)
    ensures |r| <= |Categories|
    ensures forall k :: 0 <= k < |r| ==> r[k] != []
  {
    LineIfAny(items, FocusGroup) + LineIfAny(items, WatchGroup) + LineIfAny(items, HealthyGroup)
  }

  /** The categories among `cats` that have names, in their order. */
  function FilledCategories(items: seq<SurveyItem>, cats: seq<string>): (r: seq<string>)
    ensures forall c :: c in r <==> c in cats && CategoryNames(items, c) != []
  {
    if |cats| == 0 then []
    else
      var r := (if CategoryNames(items, cats[0]) != [] then [cats[0]] else []) + FilledCategories(items, cats[1..]);
      assert forall c :: c in cats <==> c == cats[0] || c in cats[1..];
      r
  }

  /** The line of category `c`, when it has names. */
  function LineOf(items: seq<SurveyItem>, c: string): string
  {
    CategoryLine(c, CategoryNames(items, c))
  }

  /** `lines` holds the line of each category of `cs`, in order. */
  predicate LinesFollow(items: seq<SurveyItem>, lines: seq<string>, cs: seq<string>) {
    |lines| == |cs| && forall k :: 0 <= k < |cs| ==> lines[k] == LineOf(items, cs[k])
  }

  lemma LinesFollowAppend(items: seq<SurveyItem>, l1: seq<string>, c1: seq<string>, l2: seq<string>, c2: seq<string>)
    requires LinesFollow(items, l1, c1) && LinesFollow(items, l2, c2)
    ensures LinesFollow(items, l1 + l2, c1 + c2)
  {
    forall k | 0 <= k < |c1 + c2| ensures (l1 + l2)[k] == LineOf(items, (c1 + c2)[k]) {
      if k >= |c1| {
        assert (l1 + l2)[k] == l2[k - |c1|] && (c1 + c2)[k] == c2[k - |c1|];
      }
    }
  }

  /** One category's contribution: its line exactly when it has names. */
  lemma LineIfAnyFollows(items: seq<SurveyItem>, c: string)
    ensures LinesFollow(items, LineIfAny(items, c), FilledCategories(items, [c]))
  {
    assert [c][1..] == [];
  }

  lemma FilledCons(items: seq<SurveyItem>, cats: seq<string>)
    requires |cats| > 0
    ensures FilledCategories(items, cats) == FilledCategories(items, [cats[0]]) + FilledCategories(items, cats[1..])
  {
    assert [cats[0]][1..] == [];
  }

  lemma FilledThree(items: seq<SurveyItem>)
    ensures FilledCategories(items, Categories) ==
      FilledCategories(items, [FocusGroup]) + (FilledCategories(items, [WatchGroup]) + FilledCategories(items, [HealthyGroup]))
  {
    assert Categories[1..] == [WatchGroup, HealthyGroup] && [WatchGroup, HealthyGroup][1..] == [HealthyGroup];
    FilledCons(items, Categories);
    FilledCons(items, [WatchGroup, HealthyGroup]);
    assert [HealthyGroup][1..] == [];
  }

  /** The report has one line per category with names, in the fixed order, each `category: a, b`. */
  lemma SurveyLinesPerCategory(items: seq<SurveyItem>)
    ensures LinesFollow(items, SurveyLines(items), FilledCategories(items, Categories))
  {
    var f, w, h := FocusGroup, WatchGroup, HealthyGroup;
    var lf, lw, lh := LineIfAny(items, f), LineIfAny(items, w), LineIfAny(items, h);
    var cf, cw, ch := FilledCategories(items, [f]), FilledCategories(items, [w]), FilledCategories(items, [h]);
    FilledThree(items);
    SurveyLinesThree(items);
    LineIfAnyFollows(items, f);
    LineIfAnyFollows(items, w);
    LineIfAnyFollows(items, h);
    LinesFollowAppend(items, lw, cw, lh, ch);
    LinesFollowAppend(items, lf, cf, lw + lh, cw + ch);
  }

  lemma SurveyLinesThree(items: seq<SurveyItem>)
    ensures SurveyLines(items) == LineIfAny(items, FocusGroup) + (LineIfAny(items, WatchGroup) + LineIfAny(items, HealthyGroup))
  {
  }

  /** `parse_survey_data`: the report, one line per non-empty category. */
  function ParseSurveyData(items: seq<SurveyItem>): string
  {
    Join(SurveyLines(items), "\n")
  }

  /** The item is filed under one of the three categories. */
  predicate Categorized(item: SurveyItem) {
    Classify(item).Some? && Classify(item).value.1 in Categories
  }

  /** The report is empty exactly when no item is filed under any category. */
  lemma SurveyEmptyIff(items: seq<SurveyItem>)
    ensures ParseSurveyData(items) == [] <==> forall it :: it in items ==> !Categorized(it)
  {
    if exists it :: it in items && Categorized(it) {
      var it :| it in items && Categorized(it);
      CategorizedItemIsReported(items, it);
    } else {
      UncategorizedReportIsEmpty(items);
    }
  }

  lemma CategorizedItemIsReported(items: seq<SurveyItem>, it: SurveyItem)
    requires it in items && Categorized(it)
    ensures ParseSurveyData(items) != []
  {
    var lines := SurveyLines(items);
    var c := Classify(it).value.1;
    assert Listed(items, Classify(it).value.0, c);
    assert |LineIfAny(items, c)| == 1;
    assert |lines| >= 1;
    JoinEmptyIff(lines, "\n");
  }

  lemma UncategorizedReportIsEmpty(items: seq<SurveyItem>)
    requires forall it :: it in items ==> !Categorized(it)
    ensures ParseSurveyData(items) == []
  {
    forall c | c in Categories ensures LineIfAny(items, c) == [] {
      UncategorizedListsNothing(items, c);
    }
    assert SurveyLines(items) == [];
  }

  lemma UncategorizedListsNothing(items: seq<SurveyItem>, c: string)
    requires c in Categories && forall it :: it in items ==> !Categorized(it)
    ensures CategoryNames(items, c) == []
  {
  }

  /** The report depends only on which names are filed under which category. */
  lemma {:induction false} SameListingSameReport(xs: seq<SurveyItem>, ys: seq<SurveyItem>)
    requires forall n, c :: c in Categories ==> (Listed(xs, n, c) <==> Listed(ys, n, c))
    ensures ParseSurveyData(xs) == ParseSurveyData(ys)
  {
    forall c | c in Categories ensures CategoryNames(xs, c) == CategoryNames(ys, c) {
      var a, b := CategoryNames(xs, c), CategoryNames(ys, c);
      assert Elems(a) == Elems(b) by {
        forall n ensures n in Elems(a) <==> n in Elems(b) {
          assert n in Elems(a) <==> n in a;
          assert n in Elems(b) <==> n in b;
        }
      }
      SortedUnique(a, b);
    }
  }

  /** Reordering the items does not change the report. */
  lemma ReportIgnoresItemOrder(xs: seq<SurveyItem>, ys: seq<SurveyItem>)
    requires multiset(xs) == multiset(ys)
    ensures ParseSurveyData(xs) == ParseSurveyData(ys)
  {
    forall n, c | c in Categories ensures Listed(xs, n, c) <==> Listed(ys, n, c) {
      assert forall it :: it in xs <==> it in multiset(xs);
      assert forall it :: it in ys <==> it in multiset(ys);
    }
    SameListingSameReport(xs, ys);
  }

  /**
   * An item lacking "name" or "value", whose report names no group, or whose group is
   * none of the three categories contributes nothing to the report.
   */
  lemma ItemWithoutCategoryIgnored(xs: seq<SurveyItem>, it: SurveyItem)
    requires "name" !in it || "value" !in it || ExtractGroup(it["value"]).None?
             || ExtractGroup(it["value"]).value !in Categories
    ensures ParseSurveyData(xs + [it]) == ParseSurveyData(xs)
  {
    forall n, c | c in Categories ensures Listed(xs + [it], n, c) <==> Listed(xs, n, c) {
      assert forall x :: x in xs + [it] <==> x in xs || x == it;
    }
    SameListingSameReport(xs + [it], xs);
  }
}
