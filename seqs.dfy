/** `Array.prototype.filter` and the counts built on it, for any element type and test. */
module Seqs {
  import opened Common

  /** The positions `filter` keeps, ascending: every position whose element passes, and no other. */
  function Positions<T>(s: seq<T>, p: T -> bool): (idx: seq<nat>)
    ensures forall k :: 0 <= k < |idx| ==> idx[k] < |s| && p(s[idx[k]])
    ensures forall k, l :: 0 <= k < l < |idx| ==> idx[k] < idx[l]
    ensures forall i :: 0 <= i < |s| && p(s[i]) ==> i in idx
  {
    if s == [] then []
    else Positions(s[..|s| - 1], p) + (if p(s[|s| - 1]) then [|s| - 1] else [])
  }

  /** `s.filter(p)`: the elements at the kept positions, in their original order. */
  function Filter<T>(s: seq<T>, p: T -> bool): (r: seq<T>)
    ensures |r| == |Positions(s, p)|
    ensures forall k :: 0 <= k < |r| ==> r[k] == s[Positions(s, p)[k]]
  {
    if s == [] then []
    else Filter(s[..|s| - 1], p) + (if p(s[|s| - 1]) then [s[|s| - 1]] else [])
  }

  /** `s.filter(p).length`. */
  function Count<T>(s: seq<T>, p: T -> bool): (n: nat)
    ensures n <= |s|
  {
    if s == [] then 0
    else Count(s[..|s| - 1], p) + (if p(s[|s| - 1]) then 1 else 0)
  }

  /** What `filter` keeps: only elements of the list that pass, and every element that passes. */
  lemma FilterIff<T>(s: seq<T>, p: T -> bool)
    ensures forall k :: 0 <= k < |Filter(s, p)| ==> Filter(s, p)[k] in s && p(Filter(s, p)[k])
    ensures forall i :: 0 <= i < |s| && p(s[i]) ==> s[i] in Filter(s, p)
  {
    var idx := Positions(s, p);
    var r := Filter(s, p);
    forall i | 0 <= i < |s| && p(s[i])
      ensures s[i] in r
    {
      var k :| 0 <= k < |idx| && idx[k] == i;
      assert r[k] == s[i];
    }
  }

  /** Counting is the length of the filtered list. */
  lemma {:induction false} CountIsFilterLength<T>(s: seq<T>, p: T -> bool)
    ensures Count(s, p) == |Filter(s, p)|
  {
    if s != [] {
      CountIsFilterLength(s[..|s| - 1], p);
    }
  }

  /** A test every element passes keeps the whole list. */
  lemma {:induction false} FilterAll<T>(s: seq<T>, p: T -> bool)
    requires forall k :: 0 <= k < |s| ==> p(s[k])
    ensures Filter(s, p) == s
  {
    if s != [] {
      var init := s[..|s| - 1];
      FilterAll(init, p);
      assert Filter(s, p) == Filter(init, p) + [s[|s| - 1]];
      assert init + [s[|s| - 1]] == s;
    }
  }

  /** A test no element passes keeps nothing. */
  lemma {:induction false} CountNone<T>(s: seq<T>, p: T -> bool)
    requires forall k :: 0 <= k < |s| ==> !p(s[k])
    ensures Count(s, p) == 0
  {
    if s != [] {
      CountNone(s[..|s| - 1], p);
    }
  }

  /** Two tests no element passes together count at most the whole list between them, and
      exactly the whole list when every element passes one of them. */
  lemma {:induction false} CountDisjoint<T>(s: seq<T>, p: T -> bool, q: T -> bool)
    requires forall k :: 0 <= k < |s| ==> !(p(s[k]) && q(s[k]))
    ensures Count(s, p) + Count(s, q) <= |s|
    ensures (forall k :: 0 <= k < |s| ==> p(s[k]) || q(s[k])) <==> Count(s, p) + Count(s, q) == |s|
  {
    if s != [] {
      var init := s[..|s| - 1];
      CountDisjoint(init, p, q);
      if forall k :: 0 <= k < |s| ==> p(s[k]) || q(s[k]) {
        assert forall k :: 0 <= k < |init| ==> p(init[k]) || q(init[k]);
      } else {
        var k :| 0 <= k < |s| && !(p(s[k]) || q(s[k]));
        if k == |s| - 1 {
          assert Count(init, p) + Count(init, q) <= |init|;
        } else {
          assert !(p(init[k]) || q(init[k]));
        }
      }
    }
  }

  /** Tests that agree on every element count alike. */
  lemma {:induction false} CountAgree<T>(s: seq<T>, p: T -> bool, q: T -> bool)
    requires forall k :: 0 <= k < |s| ==> p(s[k]) == q(s[k])
    ensures Count(s, p) == Count(s, q)
  {
    if s != [] {
      CountAgree(s[..|s| - 1], p, q);
    }
  }

  /** `s.map(f)`. */
  function Map<T, U>(s: seq<T>, f: T -> U): (r: seq<U>)
    ensures |r| == |s|
    ensures forall k :: 0 <= k < |s| ==> r[k] == f(s[k])
  {
    if s == [] then [] else Map(s[..|s| - 1], f) + [f(s[|s| - 1])]
  }

  /** Counting a mapped list is counting the original with the composed test. */
  lemma {:induction false} CountMap<T, U>(s: seq<T>, f: T -> U, p: U -> bool)
    ensures Count(Map(s, f), p) == Count(s, x => p(f(x)))
  {
    if s != [] {
      CountMap(s[..|s| - 1], f, p);
      assert Map(s, f)[..|s| - 1] == Map(s[..|s| - 1], f);
    }
  }

  /** Counting a mapped list with a test that agrees, element by element, with a test on the
      original counts alike. */
  lemma {:induction false} CountMapAgree<T, U>(s: seq<T>, f: T -> U, p: U -> bool, q: T -> bool)
    requires forall k :: 0 <= k < |s| ==> p(f(s[k])) == q(s[k])
    ensures Count(Map(s, f), p) == Count(s, q)
  {
    if s != [] {
      var init := s[..|s| - 1];
      CountMapAgree(init, f, p, q);
      assert Map(s, f)[..|s| - 1] == Map(init, f);
    }
  }

  /** A test no element passes filters everything out. */
  lemma FilterNone<T>(s: seq<T>, p: T -> bool)
    requires forall k :: 0 <= k < |s| ==> !p(s[k])
    ensures Filter(s, p) == []
  {
    CountNone(s, p);
    CountIsFilterLength(s, p);
  }

  /** `s.some(x => !ok(x)) ? None : s.map(f)`: the mapped list when every element passes, nothing
      when one fails. */
  function MapIfAll<T(!new), U>(s: seq<T>, ok: T -> bool, f: T --> U): (r: Option<seq<U>>)
    requires forall x :: ok(x) ==> f.requires(x)
    ensures r.Some? <==> forall k :: 0 <= k < |s| ==> ok(s[k])
    ensures r.Some? ==> |r.value| == |s| && forall k :: 0 <= k < |s| ==> r.value[k] == f(s[k])
  {
    if s == [] then Some([])
    else
      match MapIfAll(s[..|s| - 1], ok, f)
      case None => None
      case Some(init) => if ok(s[|s| - 1]) then Some(init + [f(s[|s| - 1])]) else None
  }
}
