/**
 * Python's ordering of `str` values (code point by code point, a proper prefix first)
 * and the duplicate-free sorted list that `sorted(set(names))` produces.
 */
module Lex {

  /** `a < b` on Python strings. */
  predicate Less(a: string, b: string)
    decreases |a|
  {
    if |a| == 0 then |b| > 0
    else if |b| == 0 then false
    else a[0] < b[0] || (a[0] == b[0] && Less(a[1..], b[1..]))
  }

  lemma {:induction false} LessIrreflexive(a: string)
    ensures !Less(a, a)
    decreases |a|
  {
    if |a| > 0 {
      LessIrreflexive(a[1..]);
    }
  }

  lemma {:induction false} LessTransitive(a: string, b: string, c: string)
    requires Less(a, b) && Less(b, c)
    ensures Less(a, c)
    decreases |a|
  {
    if |a| > 0 && a[0] == b[0] && b[0] == c[0] {
      LessTransitive(a[1..], b[1..], c[1..]);
    }
  }

  /** Any two different strings are ordered one way or the other. */
  lemma {:induction false} LessTotal(a: string, b: string)
    requires a != b
    ensures Less(a, b) || Less(b, a)
    decreases |a|
  {
    if |a| > 0 && |b| > 0 && a[0] == b[0] {
      assert a == [a[0]] + a[1..] && b == [b[0]] + b[1..];
      LessTotal(a[1..], b[1..]);
    }
  }

  lemma LessAsymmetric(a: string, b: string)
    requires Less(a, b)
    ensures !Less(b, a)
  {
    if Less(b, a) {
      LessTransitive(a, b, a);
      LessIrreflexive(a);
    }
  }

  /** The elements of a list, as a set. */
  function Elems(xs: seq<string>): set<string> {
    set x | x in xs
  }

  lemma ElemsEmpty(xs: seq<string>)
    ensures Elems(xs) == {} <==> |xs| == 0
  {
    if |xs| > 0 {
      assert xs[0] in Elems(xs);
    }
  }

  lemma ElemsCons(x: string, xs: seq<string>)
    ensures Elems([x] + xs) == {x} + Elems(xs)
  {
    var l := [x] + xs;
    forall y | y in Elems(l) ensures y in {x} + Elems(xs) {
      var k :| 0 <= k < |l| && l[k] == y;
      if k > 0 { assert xs[k - 1] == y; }
    }
  }

  /** Ascending without repetition. */
  predicate StrictlySorted(xs: seq<string>) {
    forall i, j :: 0 <= i < j < |xs| ==> Less(xs[i], xs[j])
  }

  /** Adding `x` to a strictly sorted list, keeping it strictly sorted: set insertion. */
  function Insert(xs: seq<string>, x: string): (r: seq<string>)
    requires StrictlySorted(xs)
    ensures StrictlySorted(r)
    ensures Elems(r) == Elems(xs) + {x}
  {
    if |xs| == 0 then [x]
    else if x == xs[0] then xs
    else if Less(x, xs[0]) then
      assert forall j :: 0 < j < |xs| ==> Less(x, xs[j]) by {
        forall j | 0 < j < |xs| ensures Less(x, xs[j]) {
          LessTransitive(x, xs[0], xs[j]);
        }
      }
      [x] + xs
    else
      LessTotal(x, xs[0]);
      var rest := Insert(xs[1..], x);
      assert forall y :: y in rest ==> Less(xs[0], y) by {
        forall y | y in rest ensures Less(xs[0], y) {
          assert y in Elems(rest);
          if y != x {
            var k :| 0 <= k < |xs[1..]| && xs[1..][k] == y;
            assert xs[k + 1] == y;
          }
        }
      }
      assert xs == [xs[0]] + xs[1..];
      ElemsCons(xs[0], xs[1..]);
      ElemsCons(xs[0], rest);
      [xs[0]] + rest
  }

  /** `sorted(set(names))`. */
  function SortedSet(names: seq<string>): (r: seq<string>)
    ensures StrictlySorted(r)
    ensures Elems(r) == Elems(names)
  {
    if |names| == 0 then []
    else
      var r := Insert(SortedSet(names[..|names| - 1]), names[|names| - 1]);
      assert names == names[..|names| - 1] + [names[|names| - 1]];
      r
  }

  /** A strictly sorted list is determined by its elements: `sorted(set(...))` does not
      depend on the order in which the names were collected. */
  lemma {:induction false} SortedUnique(xs: seq<string>, ys: seq<string>)
    requires StrictlySorted(xs) && StrictlySorted(ys)
    requires Elems(xs) == Elems(ys)
    ensures xs == ys
    decreases |xs|
  {
    ElemsEmpty(xs);
    ElemsEmpty(ys);
    if |xs| > 0 && |ys| > 0 {
      assert xs[0] in Elems(ys);
      assert ys[0] in Elems(xs);
      if xs[0] != ys[0] {
        var i :| 0 <= i < |ys| && ys[i] == xs[0];
        var j :| 0 <= j < |xs| && xs[j] == ys[0];
        assert i > 0 && j > 0;
        assert Less(ys[0], xs[0]) && Less(xs[0], ys[0]);
        LessAsymmetric(ys[0], xs[0]);
      }
      forall z | z in xs[1..] ensures z in ys[1..] {
        var k :| 1 <= k < |xs| && xs[k] == z;
        assert Less(xs[0], z);
        LessIrreflexive(z);
        assert z in Elems(ys);
        var m :| 0 <= m < |ys| && ys[m] == z;
        assert m != 0;
      }
      forall z | z in ys[1..] ensures z in xs[1..] {
        var k :| 1 <= k < |ys| && ys[k] == z;
        assert Less(ys[0], z);
        LessIrreflexive(z);
        assert z in Elems(xs);
        var m :| 0 <= m < |xs| && xs[m] == z;
        assert m != 0;
      }
      assert Elems(xs[1..]) == Elems(ys[1..]);
      SortedUnique(xs[1..], ys[1..]);
      assert xs == [xs[0]] + xs[1..] && ys == [ys[0]] + ys[1..];
    }
  }
}
