/** Filtering and taking prefixes by a condition on the elements. */
module Filters {

  /** The elements that meet the condition, in order; defined from the last element. */
  function Filter<T>(p: T -> bool, s: seq<T>): (r: seq<T>)
    ensures |r| <= |s|
  {
    if s == [] then []
    else Filter(p, s[..|s| - 1]) + if p(s[|s| - 1]) then [s[|s| - 1]] else []
  }

  lemma {:induction false} FilterMembers<T(!new)>(p: T -> bool, s: seq<T>)
    ensures forall x :: x in Filter(p, s) <==> x in s && p(x)
  {
    if s != [] {
      FilterMembers(p, s[..|s| - 1]);
      assert s == s[..|s| - 1] + [s[|s| - 1]];
    }
  }

  lemma FilterSnoc<T>(p: T -> bool, s: seq<T>, x: T)
    ensures Filter(p, s + [x]) == Filter(p, s) + if p(x) then [x] else []
  {
    assert (s + [x])[..|s|] == s;
  }

  lemma {:induction false} FilterSame<T(!new)>(p: T -> bool, q: T -> bool, s: seq<T>)
    requires forall x :: p(x) <==> q(x)
    ensures Filter(p, s) == Filter(q, s)
  {
    if s != [] {
      FilterSame(p, q, s[..|s| - 1]);
    }
  }

  lemma {:induction false} FilterAll<T>(p: T -> bool, s: seq<T>)
    requires forall x | x in s :: p(x)
    ensures Filter(p, s) == s
  {
    if s != [] {
      assert s[|s| - 1] in s;
      FilterAll(p, s[..|s| - 1]);
    }
  }

  /** The longest prefix whose elements all meet the condition. */
  function TakeWhile<T>(p: T -> bool, s: seq<T>): (r: seq<T>)
    ensures |r| <= |s| && s[..|r|] == r
    ensures forall i | 0 <= i < |r| :: p(r[i])
    ensures |r| < |s| ==> !p(s[|r|])
  {
    if s == [] || !p(s[0]) then []
    else
      var r := TakeWhile(p, s[1..]);
      assert s[1..][..|r|] == r;
      [s[0]] + r
  }

  lemma {:induction false} TakeWhileRun<T>(p: T -> bool, a: seq<T>, b: seq<T>)
    requires forall i | 0 <= i < |a| :: p(a[i])
    ensures TakeWhile(p, a + b) == a + TakeWhile(p, b)
  {
    if a == [] {
      assert a + b == b;
    } else {
      assert (a + b)[1..] == a[1..] + b;
      TakeWhileRun(p, a[1..], b);
      assert [a[0]] + (a[1..] + TakeWhile(p, b)) == a + TakeWhile(p, b);
    }
  }
}
