/** The many-to-one loader (`loadProxy` of backend/ent/account_query.go). */
module LoadProxy {
  import opened Text
  import opened AccountNodes
  import opened KeyGroups

  datatype LoadError = QueryFailed | UnexpectedKey(id: int)

  function Keys(nodes: seq<Account>): (keys: seq<Option<int>>)
    reads (set a | a in nodes)`fields
    ensures |keys| == |nodes|
    ensures forall i :: 0 <= i < |nodes| ==> keys[i] == nodes[i].ProxyKey()
  {
    if nodes == [] then [] else Keys(nodes[..|nodes| - 1]) + [nodes[|nodes| - 1].ProxyKey()]
  }

  /** `nodeids` maps each key to the nodes that have it, in order. */
  ghost predicate IsGrouping<T>(nodes: seq<T>, keys: seq<Option<int>>, nodeids: map<int, seq<T>>)
    requires |nodes| == |keys|
  {
    && (forall k :: k in nodeids <==> Some(k) in keys)
    && forall k :: k in nodeids ==> nodeids[k] == Having(nodes, keys, k)
  }

  lemma {:induction false} HavingNone<T>(nodes: seq<T>, keys: seq<Option<int>>, k: int)
    requires |nodes| == |keys| && Some(k) !in keys
    ensures Having(nodes, keys, k) == []
    decreases |nodes|
  {
    if nodes != [] {
      var n := |nodes| - 1;
      assert keys == keys[..n] + [keys[n]];
      HavingNone(nodes[..n], keys[..n], k);
    }
  }

  lemma GroupingSnoc<T>(nodes: seq<T>, keys: seq<Option<int>>, nodeids: map<int, seq<T>>, node: T, key: Option<int>)
    requires |nodes| == |keys| && IsGrouping(nodes, keys, nodeids)
    ensures IsGrouping(nodes + [node], keys + [key],
                       if key.None? then nodeids
                       else nodeids[key.value := (if key.value in nodeids then nodeids[key.value] else []) + [node]])
  {
    var ns, ks := nodes + [node], keys + [key];
    assert ns[..|nodes|] == nodes && ks[..|keys|] == keys;
    assert forall k :: Having(ns, ks, k) == Having(nodes, keys, k) + (if key == Some(k) then [node] else []);
    assert forall k :: Having(nodes, keys, k) + [] == Having(nodes, keys, k);
    if key.Some? && key.value !in nodeids {
      HavingNone(nodes, keys, key.value);
    }
  }

  /** The first loop: the distinct keys in order, and the nodes of each. */
  method GroupByProxy(nodes: seq<Account>) returns (ids: seq<int>, nodeids: map<int, seq<Account>>)
    ensures ids == FirstKeys(Keys(nodes))
    ensures IsGrouping(nodes, Keys(nodes), nodeids)
  {
    ids, nodeids := [], map[];
    ghost var keys := Keys(nodes);
    for i := 0 to |nodes|
      invariant ids == FirstKeys(keys[..i])
      invariant IsGrouping(nodes[..i], keys[..i], nodeids)
    {
      var key := nodes[i].ProxyKey();
      assert keys[..i + 1] == keys[..i] + [key] && nodes[..i + 1] == nodes[..i] + [nodes[i]];
      assert keys[..i + 1][..i] == keys[..i];
      GroupingSnoc(nodes[..i], keys[..i], nodeids, nodes[i], key);
      if key.None? {
        assert FirstKeys(keys[..i]) + [] == FirstKeys(keys[..i]);
        continue;
      }
      var fk := key.value;
      assert key == Some(fk) && (fk in nodeids <==> Some(fk) in keys[..i]);
      if fk !in nodeids {
        ids := ids + [fk];
        nodeids := nodeids[fk := []];
      } else {
        assert FirstKeys(keys[..i]) + [] == FirstKeys(keys[..i]);
      }
      nodeids := nodeids[fk := nodeids[fk] + [nodes[i]]];
    }
    assert keys[..|nodes|] == keys && nodes[..|nodes|] == nodes;
  }

  /** The last neighbour with a key: a later one overwrites an earlier one. */
  function LastWith(neighbors: seq<Proxy>, k: int): Option<Proxy> {
    if neighbors == [] then None
    else
      var n := |neighbors| - 1;
      if neighbors[n].id == k then Some(neighbors[n]) else LastWith(neighbors[..n], k)
  }

  /** What a node with the given key ends with, if it held `before`. */
  function ProxyFor(neighbors: seq<Proxy>, key: Option<int>, before: Option<Proxy>): Option<Proxy> {
    if key.None? then before
    else match LastWith(neighbors, key.value)
      case None => before
      case Some(p) => Some(p)
  }

  ghost predicate LookedUp(nodes: seq<Account>, keys: seq<Option<int>>, before: seq<Option<Proxy>>,
                           neighbors: seq<Proxy>)
    requires |nodes| == |keys| == |before|
    reads (set a | a in nodes)`proxy
  {
    forall i :: 0 <= i < |nodes| ==> nodes[i].proxy == ProxyFor(neighbors, keys[i], before[i])
  }

  /** `for i := range nodes { assign(nodes[i], n) }`. */
  method AssignAll(members: seq<Account>, p: Proxy)
    modifies (set a | a in members)`proxy
    ensures forall a :: a in members ==> a.proxy == Some(p)
  {
    for i := 0 to |members|
      invariant forall j :: 0 <= j < i ==> members[j].proxy == Some(p)
    {
      members[i].proxy := Some(p);
    }
  }

  lemma GroupMembers(nodes: seq<Account>, keys: seq<Option<int>>, k: int, i: nat)
    requires |nodes| == |keys| && i < |nodes|
    requires forall i, j :: 0 <= i < |nodes| && 0 <= j < |nodes| && nodes[i] == nodes[j] ==> keys[i] == keys[j]
    ensures nodes[i] in Having(nodes, keys, k) <==> keys[i] == Some(k)
  {
    HavingMembers(nodes, keys, k, nodes[i]);
  }

  lemma GroupSubset(nodes: seq<Account>, keys: seq<Option<int>>, k: int, a: Account)
    requires |nodes| == |keys| && a in Having(nodes, keys, k)
    ensures a in nodes
  {
    HavingMembers(nodes, keys, k, a);
  }

  method AttachOne(ghost nodes: seq<Account>, ghost keys: seq<Option<int>>, ghost before: seq<Option<Proxy>>,
                   members: seq<Account>, ghost done: seq<Proxy>, p: Proxy)
    requires |nodes| == |keys| == |before| && members == Having(nodes, keys, p.id)
    requires forall i, j :: 0 <= i < |nodes| && 0 <= j < |nodes| && nodes[i] == nodes[j] ==> keys[i] == keys[j]
    requires LookedUp(nodes, keys, before, done)
    modifies (set a | a in nodes)`proxy
    ensures LookedUp(nodes, keys, before, done + [p])
  {
    forall a | a in members
      ensures a in nodes
    {
      GroupSubset(nodes, keys, p.id, a);
    }
    AssignAll(members, p);
    assert (done + [p])[..|done|] == done;
    forall i | 0 <= i < |nodes|
      ensures nodes[i].proxy == ProxyFor(done + [p], keys[i], before[i])
    {
      GroupMembers(nodes, keys, p.id, i);
    }
  }

  predicate AllKnown(ids: seq<int>, neighbors: seq<Proxy>) {
    forall k :: 0 <= k < |neighbors| ==> neighbors[k].id in ids
  }

  /** The neighbour at `k` is the first that was not asked for. */
  predicate FirstUnknown(ids: seq<int>, neighbors: seq<Proxy>, k: int) {
    0 <= k < |neighbors| && AllKnown(ids, neighbors[..k]) && neighbors[k].id !in ids
  }

  ghost function Held(nodes: seq<Account>): (r: seq<Option<Proxy>>)
    reads (set a | a in nodes)`proxy
    ensures |r| == |nodes| && forall i :: 0 <= i < |nodes| ==> r[i] == nodes[i].proxy
  {
    if nodes == [] then [] else Held(nodes[..|nodes| - 1]) + [nodes[|nodes| - 1].proxy]
  }

  method ScatterAll(ghost nodes: seq<Account>, ghost keys: seq<Option<int>>, ghost before: seq<Option<Proxy>>,
                    nodeids: map<int, seq<Account>>, neighbors: seq<Proxy>)
    returns (err: Option<LoadError>)
    requires |nodes| == |keys| == |before| && IsGrouping(nodes, keys, nodeids)
    requires forall i, j :: 0 <= i < |nodes| && 0 <= j < |nodes| && nodes[i] == nodes[j] ==> keys[i] == keys[j]
    requires LookedUp(nodes, keys, before, [])
    modifies (set a | a in nodes)`proxy
    ensures err.None? <==> AllKnown(FirstKeys(keys), neighbors)
    ensures err.None? ==> LookedUp(nodes, keys, before, neighbors)
    ensures err.Some? ==>
              exists k :: FirstUnknown(FirstKeys(keys), neighbors, k) && err.value == UnexpectedKey(neighbors[k].id)
  {
    hide ProxyFor, Having, FirstKeys, LookedUp;
    FirstKeysFacts(keys);
    ghost var done: seq<Proxy> := [];
    for k := 0 to |neighbors|
      invariant done == neighbors[..k]
      invariant forall j :: 0 <= j < k ==> neighbors[j].id in nodeids
      invariant LookedUp(nodes, keys, before, done)
    {
      if neighbors[k].id !in nodeids {
        assert FirstUnknown(FirstKeys(keys), neighbors, k);
        return Some(UnexpectedKey(neighbors[k].id));
      }
      AttachOne(nodes, keys, before, nodeids[neighbors[k].id], done, neighbors[k]);
      done := done + [neighbors[k]];
    }
    assert done == neighbors;
    err := None;
  }

  /** The whole loader; `fetch` is the proxy query restricted to the given keys, issued only if there is
      one. Every node with a key ends with the proxy of that key, even when node keys repeat. */
  method Load(nodes: seq<Account>, fetch: seq<int> -> Option<seq<Proxy>>) returns (err: Option<LoadError>)
    modifies (set a | a in nodes)`proxy
    ensures var ids := FirstKeys(Keys(nodes));
            && (err.None? <==> ids == [] || (fetch(ids).Some? && AllKnown(ids, fetch(ids).value)))
            && (err.None? ==>
                 LookedUp(nodes, Keys(nodes), old(Held(nodes)), if ids == [] then [] else fetch(ids).value))
            && (err.Some? && fetch(ids).None? ==> err.value == QueryFailed)
            && (err.Some? && fetch(ids).Some? ==>
                 exists k :: FirstUnknown(ids, fetch(ids).value, k) &&
                             err.value == UnexpectedKey(fetch(ids).value[k].id))
  {
    ghost var before := Held(nodes);
    var ids, nodeids := GroupByProxy(nodes);
    NothingFetched(nodes, Keys(nodes), before);
    if ids == [] {
      return None;
    }
    var answer := fetch(ids);
    if answer.None? {
      return Some(QueryFailed);
    }
    err := ScatterAll(nodes, Keys(nodes), before, nodeids, answer.value);
  }

  lemma NothingFetched(nodes: seq<Account>, keys: seq<Option<int>>, before: seq<Option<Proxy>>)
    requires |nodes| == |keys| == |before| && forall i :: 0 <= i < |nodes| ==> before[i] == nodes[i].proxy
    ensures LookedUp(nodes, keys, before, [])
  {
  }
}
