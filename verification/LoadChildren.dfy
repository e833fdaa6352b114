/**
 The one-to-many loaders: `loadUsageLogs` of backend/ent/account_query.go, and its variant for a
 foreign key that may be nil, `loadAdoptionDecisions` of backend/ent/authidentity_query.go.
 */
module LoadChildren {
  import opened Text
  import opened Seqs
  import opened AccountNodes
  import opened NodeIndex
  import opened KeyGroups

  datatype LoadError = QueryFailed | NilKey(child: int) | UnexpectedKey(fk: int, child: int)

  /** The part of the children that the node at `i` receives. */
  function ChildrenOf<T(==), C>(nodes: seq<T>, ids: seq<int>, fk: C -> Option<int>, children: seq<C>, i: nat): seq<C>
    requires |nodes| == |ids| && i < |nodes|
  {
    if Owns(nodes, ids, i) then Filter(KeyIs(fk, ids[i]), children) else []
  }

  lemma ChildrenSnoc<T, C>(nodes: seq<T>, ids: seq<int>, fk: C -> Option<int>, done: seq<C>, c: C, i: nat)
    requires |nodes| == |ids| && i < |nodes|
    ensures ChildrenOf(nodes, ids, fk, done + [c], i) ==
            ChildrenOf(nodes, ids, fk, done, i) +
            (if Owns(nodes, ids, i) && fk(c) == Some(ids[i]) then [c] else [])
  {
    FilterSnoc(KeyIs(fk, ids[i]), done, c);
  }

  /** The child's foreign key is set and belongs to a node that was asked for. */
  predicate Placed<C>(ids: seq<int>, fk: C -> Option<int>, c: C) {
    fk(c).Some? && fk(c).value in ids
  }

  predicate AllPlaced<C>(ids: seq<int>, fk: C -> Option<int>, children: seq<C>) {
    forall k :: 0 <= k < |children| ==> Placed(ids, fk, children[k])
  }

  /** The child at `k` is the first that is not placed. */
  predicate FirstMisplaced<C>(ids: seq<int>, fk: C -> Option<int>, children: seq<C>, k: int) {
    0 <= k < |children| && AllPlaced(ids, fk, children[..k]) && !Placed(ids, fk, children[k])
  }

  lemma PlacedPrefix<C>(ids: seq<int>, fk: C -> Option<int>, children: seq<C>, k: nat)
    requires k < |children|
    ensures children[..k + 1] == children[..k] + [children[k]]
    ensures AllPlaced(ids, fk, children[..k + 1]) <==>
            AllPlaced(ids, fk, children[..k]) && Placed(ids, fk, children[k])
    ensures !Placed(ids, fk, children[k]) ==> !AllPlaced(ids, fk, children)
  {
    assert children[..k + 1][k] == children[k];
    assert forall j :: 0 <= j < k ==> children[..k + 1][j] == children[..k][j];
  }

  /** The object found by a key is the node at `i` exactly when `i` owns that key. */
  lemma FoundIs<T>(nodes: seq<T>, ids: seq<int>, byID: map<int, T>, x: int, i: nat)
    requires Keyed(nodes, ids) && IsByID(nodes, ids, byID) && x in byID && i < |nodes|
    ensures byID[x] == nodes[i] <==> Owns(nodes, ids, i) && ids[i] == x
    ensures byID[x] in nodes
  {
    var k := LastIndex(ids, x);
    assert nodes[k] == byID[x];
    if byID[x] == nodes[i] {
      assert ids[i] == ids[k];
    }
  }

  // ---------------------------------------------------------------------------
  // loadUsageLogs
  // ---------------------------------------------------------------------------

  function LogKey(): UsageLog -> Option<int> {
    (u: UsageLog) => Some(u.accountId)
  }

  function LogError(u: UsageLog): LoadError {
    UnexpectedKey(u.accountId, u.id)
  }

  ghost predicate Dealing(nodes: seq<Account>, ids: seq<int>, done: seq<UsageLog>)
    requires |nodes| == |ids|
    reads (set a | a in nodes)`usageLogs
  {
    forall i :: 0 <= i < |nodes| ==> nodes[i].usageLogs == ChildrenOf(nodes, ids, LogKey(), done, i)
  }

  method IndexNodes(nodes: seq<Account>) returns (fks: seq<int>, nodeids: map<int, Account>)
    modifies (set a | a in nodes)`usageLogs
    ensures fks == Ids(nodes) && IsByID(nodes, fks, nodeids)
    ensures forall i :: 0 <= i < |nodes| ==> nodes[i].usageLogs == []
  {
    ghost var ids := Ids(nodes);
    fks, nodeids := [], map[];
    for i := 0 to |nodes|
      invariant fks == ids[..i]
      invariant IsByID(nodes[..i], ids[..i], nodeids)
      invariant forall j :: 0 <= j < i ==> nodes[j].usageLogs == []
    {
      var node := nodes[i];
      fks := fks + [node.Id()];
      ByIDSnoc(nodes[..i], ids[..i], nodeids, node, node.Id());
      assert nodes[..i + 1] == nodes[..i] + [node] && ids[..i + 1] == ids[..i] + [ids[i]];
      nodeids := nodeids[node.Id() := node];
      node.usageLogs := [];
    }
    assert nodes[..|nodes|] == nodes && ids[..|nodes|] == ids;
  }

  method GiveLog(ghost nodes: seq<Account>, ghost ids: seq<int>, ghost byID: map<int, Account>,
                 ghost done: seq<UsageLog>, node: Account, u: UsageLog)
    requires Keyed(nodes, ids) && IsByID(nodes, ids, byID) && Dealing(nodes, ids, done)
    requires u.accountId in byID && byID[u.accountId] == node
    modifies (set a | a in nodes)`usageLogs
    ensures Dealing(nodes, ids, done + [u])
  {
    forall i | 0 <= i < |nodes|
      ensures nodes[i] == node <==> Owns(nodes, ids, i) && ids[i] == u.accountId
      ensures node in nodes
      ensures ChildrenOf(nodes, ids, LogKey(), done + [u], i) ==
              ChildrenOf(nodes, ids, LogKey(), done, i) + (if nodes[i] == node then [u] else [])
    {
      FoundIs(nodes, ids, byID, u.accountId, i);
      ChildrenSnoc(nodes, ids, LogKey(), done, u, i);
    }
    assert node in nodes by {
      assert nodes[LastIndex(ids, u.accountId)] == node;
    }
    node.usageLogs := node.usageLogs + [u];
  }

  lemma NothingDealt(nodes: seq<Account>, ids: seq<int>)
    requires |nodes| == |ids| && forall i :: 0 <= i < |nodes| ==> nodes[i].usageLogs == []
    ensures Dealing(nodes, ids, [])
  {
  }

  lemma LogPlaced(nodes: seq<Account>, ids: seq<int>, byID: map<int, Account>, u: UsageLog)
    requires |nodes| == |ids| && IsByID(nodes, ids, byID)
    ensures Placed(ids, LogKey(), u) <==> u.accountId in byID
  {
  }

  method DealLogs(ghost nodes: seq<Account>, ghost ids: seq<int>, nodeids: map<int, Account>, neighbors: seq<UsageLog>)
    returns (err: Option<LoadError>)
    requires Keyed(nodes, ids) && IsByID(nodes, ids, nodeids) && Dealing(nodes, ids, [])
    modifies (set a | a in nodes)`usageLogs
    ensures err.None? <==> AllPlaced(ids, LogKey(), neighbors)
    ensures err.None? ==> Dealing(nodes, ids, neighbors)
    ensures err.Some? ==> exists k :: FirstMisplaced(ids, LogKey(), neighbors, k) && err.value == LogError(neighbors[k])
  {
    ghost var done: seq<UsageLog> := [];
    for k := 0 to |neighbors|
      invariant done == neighbors[..k]
      invariant AllPlaced(ids, LogKey(), done)
      invariant Dealing(nodes, ids, done)
    {
      PlacedPrefix(ids, LogKey(), neighbors, k);
      LogPlaced(nodes, ids, nodeids, neighbors[k]);
      var fk := neighbors[k].accountId;
      if fk !in nodeids {
        assert FirstMisplaced(ids, LogKey(), neighbors, k);
        return Some(UnexpectedKey(fk, neighbors[k].id));
      }
      GiveLog(nodes, ids, nodeids, done, nodeids[fk], neighbors[k]);
      done := done + [neighbors[k]];
    }
    assert done == neighbors;
    err := None;
  }

  /** The whole loader; `fetch` is the usage-log query restricted to the given account keys. */
  method LoadUsageLogs(nodes: seq<Account>, fetch: seq<int> -> Option<seq<UsageLog>>) returns (err: Option<LoadError>)
    modifies (set a | a in nodes)`usageLogs
    ensures var ids := Ids(nodes);
            && (err.None? <==> fetch(ids).Some? && AllPlaced(ids, LogKey(), fetch(ids).value))
            && (err.None? ==> Dealing(nodes, ids, fetch(ids).value))
            && (fetch(ids).None? ==> err == Some(QueryFailed))
            && (fetch(ids).Some? && err.Some? ==>
                 exists k :: FirstMisplaced(ids, LogKey(), fetch(ids).value, k) &&
                             err.value == LogError(fetch(ids).value[k]))
  {
    var fks, nodeids := IndexNodes(nodes);
    var answer := fetch(fks);
    if answer.None? {
      return Some(QueryFailed);
    }
    IdsKeyed(nodes);
    NothingDealt(nodes, fks);
    err := DealLogs(nodes, fks, nodeids, answer.value);
  }

  /** With distinct keys every node's list is the in-order filter of the children by foreign key, and the
      lists together are a permutation of the children: each child is attached to exactly one node. */
  lemma ChildrenConserved<T, C>(nodes: seq<T>, ids: seq<int>, fk: C -> Option<int>, children: seq<C>)
    requires |nodes| == |ids| && Distinct(ids) && AllPlaced(ids, fk, children)
    ensures forall i :: 0 <= i < |nodes| ==>
              ChildrenOf(nodes, ids, fk, children, i) == Filter(KeyIs(fk, ids[i]), children)
    ensures multiset(Dealt(fk, children, ids)) == multiset(children)
  {
    forall i | 0 <= i < |nodes|
      ensures Owns(nodes, ids, i)
    {
      DistinctOwns(nodes, ids, i);
    }
    forall k | 0 <= k < |children|
      ensures fk(children[k]).Some? && fk(children[k]).value in ids
    {
      assert Placed(ids, fk, children[k]);
    }
    DealingConserves(fk, children, ids);
  }

  /** With repeated keys, a node holds the in-order filter of the children by its key exactly when its key
      finds it or no child has that key; otherwise it holds nothing. */
  lemma RepeatedKeyLosesChildren<T, C>(nodes: seq<T>, ids: seq<int>, fk: C -> Option<int>, children: seq<C>, i: nat)
    requires |nodes| == |ids| && i < |nodes|
    ensures ChildrenOf(nodes, ids, fk, children, i) == Filter(KeyIs(fk, ids[i]), children) <==>
            Owns(nodes, ids, i) || forall k :: 0 <= k < |children| ==> fk(children[k]) != Some(ids[i])
  {
    var mine := Filter(KeyIs(fk, ids[i]), children);
    forall k | 0 <= k < |children| && fk(children[k]) == Some(ids[i])
      ensures children[k] in mine
    {
      assert KeyIs(fk, ids[i])(children[k]);
    }
    if mine != [] {
      assert mine[0] in mine;
      var k :| 0 <= k < |children| && children[k] == mine[0];
    }
  }

  /** A concrete input: two nodes with key 7 and one usage log of account 7. Only the second node receives
      it. */
  lemma RepeatedKeyExample(first: Account, second: Account)
    requires first != second
    ensures var log := UsageLog(1, 7, "");
            && AllPlaced([7, 7], LogKey(), [log])
            && ChildrenOf([first, second], [7, 7], LogKey(), [log], 0) == []
            && ChildrenOf([first, second], [7, 7], LogKey(), [log], 1) == [log]
  {
    var log := UsageLog(1, 7, "");
    SecondOwns(first, second, 7);
    FilterOne(KeyIs(LogKey(), 7), log);
    assert 7 in [7, 7];
  }

  /** The lists of the first `n` nodes, one after the other. */
  function AllLists<T(==), C>(nodes: seq<T>, ids: seq<int>, fk: C -> Option<int>, children: seq<C>, n: nat): seq<C>
    requires |nodes| == |ids| && n <= |nodes|
  {
    if n == 0 then []
    else AllLists(nodes, ids, fk, children, n - 1) + ChildrenOf(nodes, ids, fk, children, n - 1)
  }

  lemma {:induction false} NoLists<T, C>(nodes: seq<T>, ids: seq<int>, fk: C -> Option<int>, children: seq<C>, n: nat)
    requires |nodes| == |ids| && n <= |nodes| && children == []
    ensures AllLists(nodes, ids, fk, children, n) == []
  {
    hide Owns;
    if n > 0 {
      NoLists(nodes, ids, fk, children, n - 1);
    }
  }

  /** With distinct objects, exactly one position receives a child: the last one with its key. */
  lemma OneOwner<T>(nodes: seq<T>, ids: seq<int>, x: int, i: nat)
    requires |nodes| == |ids| && Distinct(nodes) && x in ids && i < |nodes|
    ensures Owns(nodes, ids, i) && ids[i] == x <==> i == LastIndex(ids, x)
  {
  }

  /** The node at `i` receives a new child exactly when it is the last one with the child's key. */
  lemma OwnerSnoc<T, C>(nodes: seq<T>, ids: seq<int>, fk: C -> Option<int>, children: seq<C>, c: C, i: nat)
    requires |nodes| == |ids| && Distinct(nodes) && i < |nodes| && Placed(ids, fk, c)
    ensures ChildrenOf(nodes, ids, fk, children + [c], i) ==
            ChildrenOf(nodes, ids, fk, children, i) + (if LastIndex(ids, fk(c).value) == i then [c] else [])
  {
    hide Distinct, LastIndex, ChildrenOf;
    ChildrenSnoc(nodes, ids, fk, children, c, i);
    OneOwner(nodes, ids, fk(c).value, i);
  }

  lemma AppendOne<C>(a: seq<C>, a': seq<C>, b: seq<C>, c: C, earlier: bool, here: bool)
    requires multiset(a') == multiset(a) + (if earlier then multiset{c} else multiset{})
    requires !(earlier && here)
    ensures multiset(a' + (b + (if here then [c] else []))) ==
            multiset(a + b) + (if earlier || here then multiset{c} else multiset{})
  {
  }

  lemma {:induction false} ListsSnoc<T, C>(nodes: seq<T>, ids: seq<int>, fk: C -> Option<int>, children: seq<C>, c: C,
                                           last: nat, n: nat)
    requires |nodes| == |ids| && n <= |nodes|
    requires forall i :: 0 <= i < |nodes| ==>
               ChildrenOf(nodes, ids, fk, children + [c], i) ==
               ChildrenOf(nodes, ids, fk, children, i) + (if last == i then [c] else [])
    ensures multiset(AllLists(nodes, ids, fk, children + [c], n)) ==
            multiset(AllLists(nodes, ids, fk, children, n)) + (if last < n then multiset{c} else multiset{})
  {
    hide ChildrenOf;
    if n > 0 {
      ListsSnoc(nodes, ids, fk, children, c, last, n - 1);
      var a, a' := AllLists(nodes, ids, fk, children, n - 1), AllLists(nodes, ids, fk, children + [c], n - 1);
      AppendOne(a, a', ChildrenOf(nodes, ids, fk, children, n - 1), c, last < n - 1, last == n - 1);
    }
  }

  /** For every input, repeated keys included: each returned child is attached to exactly one node, so
      the lists together are a permutation of the children and their lengths add up. */
  lemma {:induction false} EveryChildOnce<T, C>(nodes: seq<T>, ids: seq<int>, fk: C -> Option<int>, children: seq<C>)
    requires |nodes| == |ids| && Distinct(nodes) && AllPlaced(ids, fk, children)
    ensures multiset(AllLists(nodes, ids, fk, children, |nodes|)) == multiset(children)
    ensures |AllLists(nodes, ids, fk, children, |nodes|)| == |children|
    decreases |children|
  {
    hide ChildrenOf, LastIndex, Distinct, AllLists;
    if children == [] {
      NoLists(nodes, ids, fk, children, |nodes|);
    } else {
      var k := |children| - 1;
      PlacedPrefix(ids, fk, children, k);
      assert children[..k + 1] == children;
      EveryChildOnce(nodes, ids, fk, children[..k]);
      forall i | 0 <= i < |nodes|
        ensures ChildrenOf(nodes, ids, fk, children[..k] + [children[k]], i) ==
                ChildrenOf(nodes, ids, fk, children[..k], i) +
                (if LastIndex(ids, fk(children[k]).value) == i then [children[k]] else [])
      {
        OwnerSnoc(nodes, ids, fk, children[..k], children[k], i);
      }
      ListsSnoc(nodes, ids, fk, children[..k], children[k], LastIndex(ids, fk(children[k]).value), |nodes|);
    }
    PermutedMembers(AllLists(nodes, ids, fk, children, |nodes|), children);
  }

  // ---------------------------------------------------------------------------
  // loadAdoptionDecisions
  // ---------------------------------------------------------------------------

  datatype Decision = Decision(id: int, identityId: Option<int>)

  class AuthIdentity {
    const id: int
    var decisions: seq<Decision>

    constructor (id: int)
      ensures this.id == id && decisions == []
    {
      this.id, decisions := id, [];
    }
  }

  function DecisionKey(): Decision -> Option<int> {
    (d: Decision) => d.identityId
  }

  function DecisionError(d: Decision): LoadError {
    if d.identityId.None? then NilKey(d.id) else UnexpectedKey(d.identityId.value, d.id)
  }

  function IdentityIds(nodes: seq<AuthIdentity>): (ids: seq<int>)
    ensures |ids| == |nodes| && forall i :: 0 <= i < |nodes| ==> ids[i] == nodes[i].id
  {
    seq(|nodes|, i requires 0 <= i < |nodes| => nodes[i].id)
  }

  ghost predicate Deciding(nodes: seq<AuthIdentity>, ids: seq<int>, done: seq<Decision>)
    requires |nodes| == |ids|
    reads (set a | a in nodes)`decisions
  {
    forall i :: 0 <= i < |nodes| ==> nodes[i].decisions == ChildrenOf(nodes, ids, DecisionKey(), done, i)
  }

  method GiveDecision(ghost nodes: seq<AuthIdentity>, ghost ids: seq<int>, ghost byID: map<int, AuthIdentity>,
                      ghost done: seq<Decision>, node: AuthIdentity, d: Decision)
    requires Keyed(nodes, ids) && IsByID(nodes, ids, byID) && Deciding(nodes, ids, done)
    requires d.identityId.Some? && d.identityId.value in byID && byID[d.identityId.value] == node
    modifies (set a | a in nodes)`decisions
    ensures Deciding(nodes, ids, done + [d])
  {
    var fk := d.identityId.value;
    forall i | 0 <= i < |nodes|
      ensures ChildrenOf(nodes, ids, DecisionKey(), done + [d], i) ==
              ChildrenOf(nodes, ids, DecisionKey(), done, i) + (if nodes[i] == node then [d] else [])
    {
      FoundIs(nodes, ids, byID, fk, i);
      ChildrenSnoc(nodes, ids, DecisionKey(), done, d, i);
    }
    assert node in nodes by {
      assert nodes[LastIndex(ids, fk)] == node;
    }
    node.decisions := node.decisions + [d];
  }

  /** The whole loader, with both of its error exits. */
  method LoadAdoptionDecisions(nodes: seq<AuthIdentity>, fetch: seq<int> -> Option<seq<Decision>>)
    returns (err: Option<LoadError>)
    modifies (set a | a in nodes)`decisions
    ensures var ids := IdentityIds(nodes);
            && (err.None? <==> fetch(ids).Some? && AllPlaced(ids, DecisionKey(), fetch(ids).value))
            && (err.None? ==> Deciding(nodes, ids, fetch(ids).value))
            && (fetch(ids).None? ==> err == Some(QueryFailed))
            && (fetch(ids).Some? && err.Some? ==>
                 exists k :: FirstMisplaced(ids, DecisionKey(), fetch(ids).value, k) &&
                             err.value == DecisionError(fetch(ids).value[k]))
  {
    var ids, nodeids := IndexIdentities(nodes);
    var answer := fetch(ids);
    if answer.None? {
      return Some(QueryFailed);
    }
    NothingDecided(nodes, ids);
    err := DealDecisions(nodes, ids, nodeids, answer.value);
  }

  lemma NothingDecided(nodes: seq<AuthIdentity>, ids: seq<int>)
    requires |nodes| == |ids| && forall i :: 0 <= i < |nodes| ==> nodes[i].decisions == []
    ensures Deciding(nodes, ids, [])
  {
  }

  method IndexIdentities(nodes: seq<AuthIdentity>) returns (fks: seq<int>, nodeids: map<int, AuthIdentity>)
    modifies (set a | a in nodes)`decisions
    ensures fks == IdentityIds(nodes) && Keyed(nodes, fks) && IsByID(nodes, fks, nodeids)
    ensures forall i :: 0 <= i < |nodes| ==> nodes[i].decisions == []
  {
    ghost var ids := IdentityIds(nodes);
    fks, nodeids := [], map[];
    for i := 0 to |nodes|
      invariant fks == ids[..i]
      invariant IsByID(nodes[..i], ids[..i], nodeids)
      invariant forall j :: 0 <= j < i ==> nodes[j].decisions == []
    {
      var node := nodes[i];
      fks := fks + [node.id];
      ByIDSnoc(nodes[..i], ids[..i], nodeids, node, node.id);
      assert nodes[..i + 1] == nodes[..i] + [node] && ids[..i + 1] == ids[..i] + [ids[i]];
      nodeids := nodeids[node.id := node];
      node.decisions := [];
    }
    assert nodes[..|nodes|] == nodes && ids[..|nodes|] == ids;
  }

  lemma DecisionPlaced(nodes: seq<AuthIdentity>, ids: seq<int>, byID: map<int, AuthIdentity>, d: Decision)
    requires |nodes| == |ids| && IsByID(nodes, ids, byID)
    ensures Placed(ids, DecisionKey(), d) <==> d.identityId.Some? && d.identityId.value in byID
  {
    if d.identityId.Some? {
      var x := d.identityId.value;
      assert x in byID <==> x in ids;
      assert DecisionKey()(d) == Some(x);
    }
  }

  method DealDecisions(ghost nodes: seq<AuthIdentity>, ghost ids: seq<int>, nodeids: map<int, AuthIdentity>,
                       neighbors: seq<Decision>)
    returns (err: Option<LoadError>)
    requires Keyed(nodes, ids) && IsByID(nodes, ids, nodeids) && Deciding(nodes, ids, [])
    modifies (set a | a in nodes)`decisions
    ensures err.None? <==> AllPlaced(ids, DecisionKey(), neighbors)
    ensures err.None? ==> Deciding(nodes, ids, neighbors)
    ensures err.Some? ==>
              exists k :: FirstMisplaced(ids, DecisionKey(), neighbors, k) && err.value == DecisionError(neighbors[k])
  {
    ghost var done: seq<Decision> := [];
    for k := 0 to |neighbors|
      invariant done == neighbors[..k]
      invariant AllPlaced(ids, DecisionKey(), done)
      invariant Deciding(nodes, ids, done)
    {
      PlacedPrefix(ids, DecisionKey(), neighbors, k);
      DecisionPlaced(nodes, ids, nodeids, neighbors[k]);
      var fk := neighbors[k].identityId;
      if fk.None? {
        assert FirstMisplaced(ids, DecisionKey(), neighbors, k);
        return Some(NilKey(neighbors[k].id));
      }
      if fk.value !in nodeids {
        assert FirstMisplaced(ids, DecisionKey(), neighbors, k);
        return Some(UnexpectedKey(fk.value, neighbors[k].id));
      }
      GiveDecision(nodes, ids, nodeids, done, nodeids[fk.value], neighbors[k]);
      done := done + [neighbors[k]];
    }
    assert done == neighbors;
    err := None;
  }
}
