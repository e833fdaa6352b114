/** Facts about sequences used by several parts of the model. */
module Seqs {

  predicate Distinct<T(==)>(s: seq<T>) {
    forall i, j :: 0 <= i < j < |s| ==> s[i] != s[j]
  }

  function Filter<T>(keep: T -> bool, s: seq<T>): (r: seq<T>)
    ensures forall x :: x in r ==> x in s && keep(x)
    ensures forall x :: x in s && keep(x) ==> x in r
  {
    if s == [] then []
    else
      assert s == [s[0]] + s[1..];
      (if keep(s[0]) then [s[0]] else []) + Filter(keep, s[1..])
  }

  lemma {:induction false} FilterConcat<T>(keep: T -> bool, a: seq<T>, b: seq<T>)
    ensures Filter(keep, a + b) == Filter(keep, a) + Filter(keep, b)
  {
    if a == [] {
      assert a + b == b;
    } else {
      assert (a + b)[1..] == a[1..] + b;
      FilterConcat(keep, a[1..], b);
    }
  }

  lemma FilterOne<T>(keep: T -> bool, x: T)
    requires keep(x)
    ensures Filter(keep, [x]) == [x]
  {
    assert [x][1..] == [];
  }

  lemma FilterSnoc<T>(keep: T -> bool, s: seq<T>, x: T)
    ensures Filter(keep, s + [x]) == Filter(keep, s) + (if keep(x) then [x] else [])
  {
    FilterConcat(keep, s, [x]);
  }

  lemma FilterNone<T>(keep: T -> bool, s: seq<T>)
    requires forall x :: x in s ==> !keep(x)
    ensures Filter(keep, s) == []
  {
    assert forall k :: 0 <= k < |Filter(keep, s)| ==> Filter(keep, s)[k] in Filter(keep, s);
  }

  /** A filter keeps everything exactly when everything passes it, and otherwise it is shorter. */
  lemma {:induction false} FilterAllIff<T>(keep: T -> bool, s: seq<T>)
    ensures |Filter(keep, s)| <= |s|
    ensures |Filter(keep, s)| == |s| <==> forall k :: 0 <= k < |s| ==> keep(s[k])
    ensures |Filter(keep, s)| == |s| ==> Filter(keep, s) == s
  {
    if s != [] {
      FilterAllIff(keep, s[1..]);
      assert forall k :: 0 < k < |s| ==> s[k] == s[1..][k - 1];
      assert s == [s[0]] + s[1..];
    }
  }

  lemma {:induction false} FilterDistinct<T>(keep: T -> bool, s: seq<T>)
    requires Distinct(s)
    ensures Distinct(Filter(keep, s))
  {
    if s != [] {
      var rest := Filter(keep, s[1..]);
      FilterDistinct(keep, s[1..]);
      assert s[0] !in s[1..];
      assert s[0] !in rest;
    }
  }

  /** The sequences one after the other. */
  function Concat<T>(ss: seq<seq<T>>): seq<T> {
    if ss == [] then [] else Concat(ss[..|ss| - 1]) + ss[|ss| - 1]
  }

  lemma ConcatSnoc<T>(ss: seq<seq<T>>, s: seq<T>)
    ensures Concat(ss + [s]) == Concat(ss) + s
  {
    assert (ss + [s])[..|ss|] == ss;
  }

  lemma ConcatOne<T>(s: seq<T>)
    ensures Concat([s]) == s
  {
    assert [s][..0] == [];
  }

  /** Splitting a sequence by a predicate loses and invents nothing. */
  lemma {:induction false} FilterSplit<T>(keep: T -> bool, s: seq<T>)
    ensures multiset(Filter(keep, s)) + multiset(Filter(Not(keep), s)) == multiset(s)
  {
    if s != [] {
      FilterSplit(keep, s[1..]);
      SplitHead(s[0], s[1..], Filter(keep, s[1..]), Filter(Not(keep), s[1..]), keep(s[0]));
      assert s == [s[0]] + s[1..];
    }
  }

  lemma SplitHead<T>(x: T, rest: seq<T>, kept: seq<T>, dropped: seq<T>, keeps: bool)
    requires multiset(kept) + multiset(dropped) == multiset(rest)
    ensures multiset((if keeps then [x] else []) + kept) + multiset((if keeps then [] else [x]) + dropped) ==
            multiset([x] + rest)
  {
  }

  function Not<T>(keep: T -> bool): T -> bool {
    x => !keep(x)
  }

  /** The elements that satisfy `keep` first, the others after them. */
  function Partition<T>(keep: T -> bool, s: seq<T>): (r: seq<T>)
    ensures multiset(r) == multiset(s)
  {
    FilterSplit(keep, s);
    Filter(keep, s) + Filter(Not(keep), s)
  }

  /** In front of an element that fails `keep`, all elements that satisfy it have gone by. */
  lemma PartitionFront<T>(keep: T -> bool, s: seq<T>, i: nat, x: T)
    requires i < |Partition(keep, s)| && !keep(Partition(keep, s)[i])
    requires x in s && keep(x)
    ensures exists j :: 0 <= j < i && Partition(keep, s)[j] == x
  {
    var front := Filter(keep, s);
    var j :| 0 <= j < |front| && front[j] == x;
    assert Partition(keep, s)[j] == x;
    assert i >= |front| by {
      assert forall k :: 0 <= k < |front| ==> front[k] in front && Partition(keep, s)[k] == front[k];
    }
  }

  /** Having no repeats is a property of the multiset of elements. */
  lemma {:induction false} DistinctMultiset<T>(s: seq<T>)
    ensures Distinct(s) <==> forall x :: x in s ==> multiset(s)[x] == 1
  {
    if s != [] {
      var rest := s[1..];
      DistinctMultiset(rest);
      assert s == [s[0]] + rest;
      assert forall x :: multiset(s)[x] == (if x == s[0] then 1 else 0) + multiset(rest)[x];
      assert forall x :: x in rest <==> multiset(rest)[x] > 0;
      if Distinct(s) {
        assert s[0] !in rest;
        assert Distinct(rest);
      }
      if forall x :: x in s ==> multiset(s)[x] == 1 {
        assert s[0] in s;
        assert s[0] !in rest;
        forall x | x in rest
          ensures multiset(rest)[x] == 1
        {
          assert x in s;
        }
        forall i, j | 0 <= i < j < |s|
          ensures s[i] != s[j]
        {
          assert s[j] == rest[j - 1];
          if i > 0 {
            assert s[i] == rest[i - 1];
          } else {
            assert s[j] in rest;
          }
        }
      }
    }
  }

  lemma DistinctPermuted<T>(a: seq<T>, b: seq<T>)
    requires multiset(a) == multiset(b)
    ensures Distinct(a) <==> Distinct(b)
  {
    DistinctMultiset(a);
    DistinctMultiset(b);
    forall x
      ensures x in a <==> x in b
    {
      assert x in a <==> multiset(a)[x] > 0;
      assert x in b <==> multiset(b)[x] > 0;
    }
  }

  lemma PermutedMembers<T>(a: seq<T>, b: seq<T>)
    requires multiset(a) == multiset(b)
    ensures |a| == |b|
    ensures forall x :: x in a <==> x in b
  {
    assert |multiset(a)| == |a| && |multiset(b)| == |b|;
    forall x
      ensures x in a <==> x in b
    {
      assert x in a <==> multiset(a)[x] > 0;
      assert x in b <==> multiset(b)[x] > 0;
    }
  }

  function Map<T, U>(f: T -> U, s: seq<T>): (r: seq<U>)
    ensures |r| == |s|
    ensures forall i :: 0 <= i < |s| ==> r[i] == f(s[i])
  {
    seq(|s|, i requires 0 <= i < |s| => f(s[i]))
  }

  function Without<T>(s: seq<T>, i: nat): seq<T>
    requires i < |s|
  {
    s[..i] + s[i + 1..]
  }

  lemma WithoutMultiset<T>(s: seq<T>, i: nat)
    requires i < |s|
    ensures multiset(s) == multiset{s[i]} + multiset(Without(s, i))
  {
    assert s == s[..i] + [s[i]] + s[i + 1..];
  }

  lemma MapWithout<T, U>(f: T -> U, s: seq<T>, i: nat)
    requires i < |s|
    ensures multiset(Map(f, s)) == multiset{f(s[i])} + multiset(Map(f, Without(s, i)))
  {
    assert Without(Map(f, s), i) == Map(f, Without(s, i));
    WithoutMultiset(Map(f, s), i);
  }

  lemma CancelOne<T>(x: T, a: multiset<T>, b: multiset<T>)
    requires multiset{x} + a == multiset{x} + b
    ensures a == b
  {
    assert a == multiset{x} + a - multiset{x};
    assert b == multiset{x} + b - multiset{x};
  }

  lemma {:induction false} MapPermuted<T, U>(f: T -> U, a: seq<T>, b: seq<T>)
    requires multiset(a) == multiset(b)
    ensures multiset(Map(f, a)) == multiset(Map(f, b))
    decreases |a|
  {
    PermutedMembers(a, b);
    if a == [] {
      assert Map(f, a) == Map(f, b);
    } else {
      assert a[0] in a;
      var i :| 0 <= i < |b| && b[i] == a[0];
      WithoutMultiset(a, 0);
      WithoutMultiset(b, i);
      CancelOne(a[0], multiset(Without(a, 0)), multiset(Without(b, i)));
      MapPermuted(f, Without(a, 0), Without(b, i));
      MapWithout(f, a, 0);
      MapWithout(f, b, i);
    }
  }
}
