/**
 The index of nodes by key that the loaders build (`byID` and `nodeids` of
 backend/ent/account_query.go): where keys repeat, the last node with a key is the one it finds.
 */
module NodeIndex {
  import opened Seqs

  /** `ids` are the keys of `nodes`: the same object has the same key. */
  ghost predicate Keyed<T>(nodes: seq<T>, ids: seq<int>) {
    |ids| == |nodes| && forall i, j :: 0 <= i < |nodes| && 0 <= j < |nodes| && nodes[i] == nodes[j] ==> ids[i] == ids[j]
  }

  /** The last position of a key. */
  function LastIndex(ids: seq<int>, x: int): (k: nat)
    requires x in ids
    ensures k < |ids| && ids[k] == x
    ensures forall j :: k < j < |ids| ==> ids[j] != x
  {
    var n := |ids| - 1;
    if ids[n] == x then n
    else
      assert ids == ids[..n] + [ids[n]];
      LastIndex(ids[..n], x)
  }

  /** The node at `i` is the object that a lookup by its key finds: the last one with that key. */
  predicate Owns<T(==)>(nodes: seq<T>, ids: seq<int>, i: nat)
    requires |ids| == |nodes| && i < |nodes|
  {
    nodes[LastIndex(ids, ids[i])] == nodes[i]
  }

  /** `byID` holds, for each key, the last node with it. */
  ghost predicate IsByID<T>(nodes: seq<T>, ids: seq<int>, byID: map<int, T>)
    requires |nodes| == |ids|
  {
    && (forall x :: x in byID <==> x in ids)
    && forall x :: x in byID ==> byID[x] == nodes[LastIndex(ids, x)]
  }

  lemma ByIDSnoc<T>(nodes: seq<T>, ids: seq<int>, byID: map<int, T>, node: T, id: int)
    requires |nodes| == |ids| && IsByID(nodes, ids, byID)
    ensures IsByID(nodes + [node], ids + [id], byID[id := node])
  {
    var all := ids + [id];
    assert all[..|ids|] == ids;
  }

  /** Of two nodes with the same key, that key finds the second. */
  lemma SecondOwns<T>(first: T, second: T, key: int)
    requires first != second
    ensures !Owns([first, second], [key, key], 0) && Owns([first, second], [key, key], 1)
  {
    assert LastIndex([key, key], key) == 1;
  }

  /** With distinct keys every node is found by its own key. */
  lemma DistinctOwns<T>(nodes: seq<T>, ids: seq<int>, i: nat)
    requires |ids| == |nodes| && i < |nodes| && Distinct(ids)
    ensures Owns(nodes, ids, i)
  {
    var k := LastIndex(ids, ids[i]);
    assert k == i;
  }
}
