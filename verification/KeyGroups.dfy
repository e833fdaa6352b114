/**
 Grouping by a foreign key, as the loaders of backend/ent/account_query.go do it, and the law that makes
 it safe: the groups together are the whole, nothing lost and nothing doubled.
 */
module KeyGroups {
  import opened Text
  import opened Seqs

  /** The distinct keys that are not nil, in order of first occurrence. */
  function FirstKeys(keys: seq<Option<int>>): seq<int> {
    if keys == [] then []
    else
      var front, last := keys[..|keys| - 1], keys[|keys| - 1];
      FirstKeys(front) + (if last.Some? && last !in front then [last.value] else [])
  }

  lemma {:induction false} FirstKeysFacts(keys: seq<Option<int>>)
    ensures Distinct(FirstKeys(keys))
    ensures forall k :: k in FirstKeys(keys) <==> Some(k) in keys
  {
    if keys != [] {
      var front, last := keys[..|keys| - 1], keys[|keys| - 1];
      assert keys == front + [last];
      FirstKeysFacts(front);
    }
  }

  /** The elements whose key is `k`, in order. */
  function Having<T>(items: seq<T>, keys: seq<Option<int>>, k: int): seq<T>
    requires |items| == |keys|
  {
    if items == [] then []
    else
      var n := |items| - 1;
      Having(items[..n], keys[..n], k) + (if keys[n] == Some(k) then [items[n]] else [])
  }

  lemma {:induction false} HavingMembers<T>(items: seq<T>, keys: seq<Option<int>>, k: int, x: T)
    requires |items| == |keys|
    ensures x in Having(items, keys, k) <==> exists i :: 0 <= i < |items| && items[i] == x && keys[i] == Some(k)
  {
    if items != [] {
      var n := |items| - 1;
      HavingMembers(items[..n], keys[..n], k, x);
      if i :| 0 <= i < n && items[..n][i] == x && keys[..n][i] == Some(k) {
        assert items[i] == x && keys[i] == Some(k);
      }
      if i :| 0 <= i < |items| && items[i] == x && keys[i] == Some(k) {
        if i < n {
          assert items[..n][i] == x && keys[..n][i] == Some(k);
        }
      }
    }
  }

  /** The elements that have a key at all, in order. */
  function WithKey<T>(items: seq<T>, keys: seq<Option<int>>): seq<T>
    requires |items| == |keys|
  {
    if items == [] then []
    else
      var n := |items| - 1;
      WithKey(items[..n], keys[..n]) + (if keys[n].Some? then [items[n]] else [])
  }

  /** The groups of the listed keys, one after the other. */
  function Grouped<T>(items: seq<T>, keys: seq<Option<int>>, ks: seq<int>): seq<T>
    requires |items| == |keys|
  {
    if ks == [] then [] else Having(items, keys, ks[0]) + Grouped(items, keys, ks[1..])
  }

  lemma HavingSnoc<T>(items: seq<T>, keys: seq<Option<int>>, k: int, x: T, key: Option<int>)
    requires |items| == |keys|
    ensures Having(items + [x], keys + [key], k) == Having(items, keys, k) + (if key == Some(k) then [x] else [])
  {
    var n := |items|;
    assert (items + [x])[..n] == items && (keys + [key])[..n] == keys;
  }

  /** One more element goes to exactly one of the groups. */
  lemma {:induction false} GroupedSnoc<T>(items: seq<T>, keys: seq<Option<int>>, ks: seq<int>, x: T, key: Option<int>)
    requires |items| == |keys| && Distinct(ks)
    ensures multiset(Grouped(items + [x], keys + [key], ks)) ==
            multiset(Grouped(items, keys, ks)) +
            (if key.Some? && key.value in ks then multiset{x} else multiset{})
    decreases |ks|
  {
    hide Having;
    if ks != [] {
      HavingSnoc(items, keys, ks[0], x, key);
      GroupedSnoc(items, keys, ks[1..], x, key);
      assert ks == [ks[0]] + ks[1..];
      assert ks[0] !in ks[1..];
      AddOne(Having(items, keys, ks[0]), Grouped(items, keys, ks[1..]), Grouped(items + [x], keys + [key], ks[1..]), x,
             key == Some(ks[0]), key.Some? && key.value in ks[1..]);
    }
  }

  lemma AddOne<T>(h: seq<T>, g: seq<T>, g': seq<T>, x: T, here: bool, there: bool)
    requires multiset(g') == multiset(g) + (if there then multiset{x} else multiset{})
    requires !(here && there)
    ensures multiset(h + (if here then [x] else []) + g') ==
            multiset(h + g) + (if here || there then multiset{x} else multiset{})
  {
  }

  lemma {:induction false} GroupedConserves<T>(items: seq<T>, keys: seq<Option<int>>, ks: seq<int>)
    requires |items| == |keys| && Distinct(ks)
    requires forall i :: 0 <= i < |keys| && keys[i].Some? ==> keys[i].value in ks
    ensures multiset(Grouped(items, keys, ks)) == multiset(WithKey(items, keys))
    decreases |items|
  {
    if items == [] {
      NothingGrouped(keys, ks, items);
    } else {
      var n := |items| - 1;
      assert items[..n] + [items[n]] == items && keys[..n] + [keys[n]] == keys;
      GroupedConserves(items[..n], keys[..n], ks);
      GroupedSnoc(items[..n], keys[..n], ks, items[n], keys[n]);
      hide Grouped;
    }
  }

  lemma {:induction false} NothingGrouped<T>(keys: seq<Option<int>>, ks: seq<int>, items: seq<T>)
    requires items == [] && keys == []
    ensures Grouped(items, keys, ks) == []
    decreases |ks|
  {
    if ks != [] {
      NothingGrouped(keys, ks[1..], items);
    }
  }

  lemma KeyListed(keys: seq<Option<int>>, i: nat)
    requires i < |keys| && keys[i].Some?
    ensures keys[i].value in FirstKeys(keys)
  {
    FirstKeysFacts(keys);
    var k := keys[i].value;
    assert Some(k) == keys[i];
  }

  /** Grouping by foreign key conserves the elements: the groups of the distinct keys together are a
      permutation of the elements that have a key. */
  lemma GroupingConserves<T>(items: seq<T>, keys: seq<Option<int>>)
    requires |items| == |keys|
    ensures multiset(Grouped(items, keys, FirstKeys(keys))) == multiset(WithKey(items, keys))
  {
    var ks := FirstKeys(keys);
    assert Distinct(ks) by {
      FirstKeysFacts(keys);
    }
    forall i | 0 <= i < |keys| && keys[i].Some?
      ensures keys[i].value in ks
    {
      KeyListed(keys, i);
    }
    GroupedConserves(items, keys, ks);
  }

  // ---------------------------------------------------------------------------
  // Children by parent
  // ---------------------------------------------------------------------------

  function KeyIs<C>(fk: C -> Option<int>, k: int): C -> bool {
    c => fk(c) == Some(k)
  }

  /** The children of each parent, one parent after the other. */
  function Dealt<C>(fk: C -> Option<int>, children: seq<C>, parents: seq<int>): seq<C> {
    if parents == [] then [] else Filter(KeyIs(fk, parents[0]), children) + Dealt(fk, children, parents[1..])
  }

  lemma {:induction false} FilterIsHaving<C>(fk: C -> Option<int>, children: seq<C>, k: int)
    ensures Filter(KeyIs(fk, k), children) == Having(children, Map(fk, children), k)
    decreases |children|
  {
    if children != [] {
      var n := |children| - 1;
      FilterIsHaving(fk, children[..n], k);
      FilterSnoc(KeyIs(fk, k), children[..n], children[n]);
      assert children[..n] + [children[n]] == children;
      assert Map(fk, children)[..n] == Map(fk, children[..n]);
    }
  }

  lemma {:induction false} DealtIsGrouped<C>(fk: C -> Option<int>, children: seq<C>, parents: seq<int>)
    ensures Dealt(fk, children, parents) == Grouped(children, Map(fk, children), parents)
    decreases |parents|
  {
    if parents != [] {
      FilterIsHaving(fk, children, parents[0]);
      DealtIsGrouped(fk, children, parents[1..]);
    }
  }

  lemma {:induction false} AllWithKey<T>(items: seq<T>, keys: seq<Option<int>>)
    requires |items| == |keys| && forall i :: 0 <= i < |keys| ==> keys[i].Some?
    ensures WithKey(items, keys) == items
    decreases |items|
  {
    if items != [] {
      var n := |items| - 1;
      AllWithKey(items[..n], keys[..n]);
      assert items[..n] + [items[n]] == items;
    }
  }

  /** Every child goes to exactly one parent: with distinct parents and every foreign key among them, the
      lists together are a permutation of the children, so their lengths add up. */
  lemma DealingConserves<C>(fk: C -> Option<int>, children: seq<C>, parents: seq<int>)
    requires Distinct(parents)
    requires forall i :: 0 <= i < |children| ==> fk(children[i]).Some? && fk(children[i]).value in parents
    ensures multiset(Dealt(fk, children, parents)) == multiset(children)
    ensures |Dealt(fk, children, parents)| == |children|
  {
    var keys := Map(fk, children);
    DealtIsGrouped(fk, children, parents);
    GroupedConserves(children, keys, parents);
    AllWithKey(children, keys);
    PermutedMembers(Dealt(fk, children, parents), children);
  }
}
