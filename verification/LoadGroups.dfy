/** The many-to-many loader (`loadGroups` of backend/ent/account_query.go). */
module LoadGroups {
  import opened Text
  import opened Seqs
  import opened JoinRows
  import opened AccountNodes
  import opened NodeIndex

  /** The error of a neighbour that no row mentioned, the panic on a row of an account that was not
      asked for, or the failure of the query. */
  datatype LoadError = QueryFailed | UnexpectedNode(id: int) | NilNode

  /** The first loop: index the nodes by key and start every edge list empty. */
  method IndexNodes(nodes: seq<Account>) returns (edgeIDs: seq<int>, byID: map<int, Account>)
    modifies (set a | a in nodes)`groups
    ensures edgeIDs == Ids(nodes)
    ensures IsByID(nodes, edgeIDs, byID)
    ensures forall i :: 0 <= i < |nodes| ==> nodes[i].groups == []
  {
    ghost var ids := Ids(nodes);
    edgeIDs, byID := [], map[];
    for i := 0 to |nodes|
      invariant edgeIDs == ids[..i]
      invariant IsByID(nodes[..i], ids[..i], byID)
      invariant forall j :: 0 <= j < i ==> nodes[j].groups == []
    {
      var node := nodes[i];
      edgeIDs := edgeIDs + [node.Id()];
      ByIDSnoc(nodes[..i], ids[..i], byID, node, node.Id());
      assert nodes[..i + 1] == nodes[..i] + [node] && ids[..i + 1] == ids[..i] + [ids[i]];
      byID := byID[node.Id() := node];
      node.groups := [];
    }
    assert nodes[..|nodes|] == nodes && ids[..|nodes|] == ids;
  }

  // ---------------------------------------------------------------------------
  // Scanning the join rows
  // ---------------------------------------------------------------------------

  function Find(byID: map<int, Account>, x: int): Account? {
    if x in byID then byID[x] else null
  }

  /** Some row of the group leads to the node. */
  ghost predicate Mentioned(byID: map<int, Account>, rows: seq<JoinRow>, g: int, a: Account?) {
    exists k :: 0 <= k < |rows| && rows[k].inId == g && Find(byID, rows[k].outId) == a
  }

  /** `nids` maps each group seen to the nodes of the rows that mention it (nil for an unknown key). */
  ghost predicate IsNids(byID: map<int, Account>, rows: seq<JoinRow>, nids: map<int, set<Account?>>) {
    && (forall g :: g in nids <==> Occurs(rows, g))
    && (forall k :: 0 <= k < |rows| ==> rows[k].inId in nids && Find(byID, rows[k].outId) in nids[rows[k].inId])
    && forall g :: g in nids ==> forall a :: a in nids[g] ==> Mentioned(byID, rows, g, a)
  }

  lemma NidsSnoc(byID: map<int, Account>, rows: seq<JoinRow>, row: JoinRow, nids: map<int, set<Account?>>)
    requires IsNids(byID, rows, nids)
    ensures var g := row.inId;
            var a := Find(byID, row.outId);
            IsNids(byID, rows + [row], nids[g := (if g in nids then nids[g] else {}) + {a}])
  {
    var all := rows + [row];
    var g := row.inId;
    var new' := nids[g := (if g in nids then nids[g] else {}) + {Find(byID, row.outId)}];
    assert all[|rows|] == row;
    forall h
      ensures h in new' <==> Occurs(all, h)
    {
      OccursSnoc(rows, row, h);
    }
    forall h | h in new'
      ensures forall a :: a in new'[h] ==> Mentioned(byID, all, h, a)
    {
      forall a | a in new'[h]
        ensures Mentioned(byID, all, h, a)
      {
        if h == g && a == Find(byID, row.outId) {
          assert all[|rows|].inId == h;
        } else {
          assert Mentioned(byID, rows, h, a);
          var k :| 0 <= k < |rows| && rows[k].inId == h && Find(byID, rows[k].outId) == a;
          assert all[k] == rows[k];
        }
      }
    }
  }

  lemma NidsKnow(byID: map<int, Account>, rows: seq<JoinRow>, nids: map<int, set<Account?>>, g: int)
    requires IsNids(byID, rows, nids)
    ensures g in nids <==> Occurs(rows, g)
  {
  }

  /** The groups are made from these rows, one from each. */
  ghost predicate MadeFrom(rows: seq<JoinRow>, groups: seq<Group>) {
    && |groups| == |rows|
    && forall k :: 0 <= k < |groups| ==> groups[k].id == rows[k].inId && groups[k].payload == rows[k].payload
  }

  /** Each group is made once, from its first row. */
  ghost predicate Materialised(rows: seq<JoinRow>, groups: seq<Group>) {
    MadeFrom(FirstRows(rows), groups)
  }

  /** `spec.Assign` on one row: a group that no earlier row mentioned is made, any other only gets one more
      node in its set. */
  method ScanRow(byID: map<int, Account>, ghost seen: seq<JoinRow>, ghost had: seq<Group>,
                 known: map<int, set<Account?>>, row: JoinRow)
    returns (made: seq<Group>, nids: map<int, set<Account?>>)
    requires Materialised(seen, had) && IsNids(byID, seen, known)
    ensures Materialised(seen + [row], had + made)
    ensures forall g :: g in made ==> fresh(g)
    ensures IsNids(byID, seen + [row], nids)
  {
    NidsSnoc(byID, seen, row, known);
    NidsKnow(byID, seen, known, row.inId);
    hide Materialised, IsNids, Occurs;
    var node := Find(byID, row.outId);
    if row.inId !in known {
      nids := known[row.inId := {node}];
      assert {} + {node} == {node};
      var g := new Group(row);
      MadeSnoc(seen, had, row, g);
      made := [g];
    } else {
      nids := known[row.inId := known[row.inId] + {node}];
      KnownSnoc(seen, had, row);
      made := [];
      assert had + made == had;
    }
  }

  /** One call of the querier: the rows it yields, after the rows `before` of earlier calls. `nids` is
      shared by the calls, so only groups that no earlier row mentioned are made. */
  method ScanRows(byID: map<int, Account>, ghost before: seq<JoinRow>, ghost had: seq<Group>,
                  known: map<int, set<Account?>>, rows: seq<JoinRow>)
    returns (groups: seq<Group>, nids: map<int, set<Account?>>)
    requires Materialised(before, had) && IsNids(byID, before, known)
    ensures Materialised(before + rows, had + groups)
    ensures forall g :: g in groups ==> fresh(g)
    ensures IsNids(byID, before + rows, nids)
  {
    hide Materialised, IsNids, Find;
    groups, nids := [], known;
    ghost var seen, all := before, had;
    assert before + rows[..0] == before && had + groups == had;
    for i := 0 to |rows|
      invariant seen == before + rows[..i] && all == had + groups
      invariant Materialised(seen, all)
      invariant forall g :: g in groups ==> fresh(g)
      invariant IsNids(byID, seen, nids)
    {
      var made: seq<Group>;
      made, nids := ScanRow(byID, seen, all, nids, rows[i]);
      assert before + rows[..i + 1] == seen + [rows[i]];
      assert had + (groups + made) == all + made;
      seen, all := seen + [rows[i]], all + made;
      groups := groups + made;
    }
    assert rows[..|rows|] == rows;
  }

  lemma MadeSnoc(rows: seq<JoinRow>, groups: seq<Group>, row: JoinRow, g: Group)
    requires Materialised(rows, groups) && !Occurs(rows, row.inId) && g.id == row.inId && g.payload == row.payload
    ensures Materialised(rows + [row], groups + [g])
  {
    assert (rows + [row])[..|rows|] == rows;
  }

  lemma KnownSnoc(rows: seq<JoinRow>, groups: seq<Group>, row: JoinRow)
    requires Materialised(rows, groups) && Occurs(rows, row.inId)
    ensures Materialised(rows + [row], groups)
  {
    assert (rows + [row])[..|rows|] == rows;
  }

  /** Up to each call, the results so far are the groups of all rows scanned so far. */
  ghost predicate ResultsOf(runs: seq<seq<JoinRow>>, results: seq<seq<Group>>) {
    && |results| == |runs|
    && forall k :: 0 <= k <= |runs| ==> Materialised(Concat(runs[..k]), Concat(results[..k]))
  }

  lemma ResultsSnoc(runs: seq<seq<JoinRow>>, results: seq<seq<Group>>, rows: seq<JoinRow>, groups: seq<Group>)
    requires ResultsOf(runs, results) && Materialised(Concat(runs) + rows, Concat(results) + groups)
    ensures ResultsOf(runs + [rows], results + [groups])
  {
    var runs', results' := runs + [rows], results + [groups];
    ConcatSnoc(runs, rows);
    ConcatSnoc(results, groups);
    hide Concat, Materialised;
    forall k | 0 <= k <= |runs'|
      ensures Materialised(Concat(runs'[..k]), Concat(results'[..k]))
    {
      if k <= |runs| {
        assert runs'[..k] == runs[..k] && results'[..k] == results[..k];
      } else {
        assert runs'[..k] == runs' && results'[..k] == results';
      }
    }
  }

  lemma ResultsWhole(runs: seq<seq<JoinRow>>, results: seq<seq<Group>>)
    requires ResultsOf(runs, results)
    ensures Materialised(Concat(runs), Concat(results))
  {
    assert runs[..|runs|] == runs && results[..|runs|] == results;
  }

  lemma NothingMade(byID: map<int, Account>)
    ensures Materialised([], []) && IsNids(byID, [], map[]) && ResultsOf([], [])
  {
    assert Concat<JoinRow>([]) == [] && Concat<Group>([]) == [];
  }

  /** One call of the querier: the rows it scans, and whether it fails after them. */
  datatype Call = Call(rows: seq<JoinRow>, failed: bool)

  function RowsOf(calls: seq<Call>): (runs: seq<seq<JoinRow>>)
    ensures |runs| == |calls| && forall k :: 0 <= k < |calls| ==> runs[k] == calls[k].rows
  {
    seq(|calls|, k requires 0 <= k < |calls| => calls[k].rows)
  }

  /** All rows that the calls scan. */
  function AllRows(calls: seq<Call>): seq<JoinRow> {
    Concat(RowsOf(calls))
  }

  /** What the calls return: the groups they made, or an error, and then those groups are lost. */
  function Returned(calls: seq<Call>, made: seq<seq<Group>>): (results: seq<Option<seq<Group>>>)
    ensures |results| == |calls|
  {
    seq(|calls|, k requires 0 <= k < |calls| => if k >= |made| || calls[k].failed then None else Some(made[k]))
  }

  lemma ReturnedSnoc(calls: seq<Call>, made: seq<seq<Group>>, call: Call, groups: seq<Group>)
    requires |made| == |calls|
    ensures Returned(calls + [call], made + [groups]) ==
            Returned(calls, made) + [if call.failed then None else Some(groups)]
  {
  }

  /** The calls of the querier that the interceptors make. The rows of a failed call have been entered into
      `nids` all the same. */
  method CallQuerier(byID: map<int, Account>, calls: seq<Call>)
    returns (ghost made: seq<seq<Group>>, results: seq<Option<seq<Group>>>, nids: map<int, set<Account?>>)
    ensures ResultsOf(RowsOf(calls), made) && Materialised(AllRows(calls), Concat(made))
    ensures results == Returned(calls, made)
    ensures forall k, g :: 0 <= k < |made| && g in made[k] ==> fresh(g)
    ensures IsNids(byID, AllRows(calls), nids)
  {
    ghost var runs := RowsOf(calls);
    made, results, nids := [], [], map[];
    NothingMade(byID);
    hide Materialised, IsNids;
    for i := 0 to |calls|
      invariant ResultsOf(runs[..i], made) && results == Returned(calls[..i], made)
      invariant forall k, g :: 0 <= k < |made| && g in made[k] ==> fresh(g)
      invariant IsNids(byID, Concat(runs[..i]), nids)
    {
      ResultsWhole(runs[..i], made);
      var groups: seq<Group>;
      groups, nids := ScanRows(byID, Concat(runs[..i]), Concat(made), nids, calls[i].rows);
      ResultsSnoc(runs[..i], made, runs[i], groups);
      ConcatSnoc(runs[..i], runs[i]);
      ReturnedSnoc(calls[..i], made, calls[i], groups);
      assert runs[..i + 1] == runs[..i] + [runs[i]] && calls[..i + 1] == calls[..i] + [calls[i]];
      hide Concat, Returned;
      made := made + [groups];
      results := results + [if calls[i].failed then None else Some(groups)];
    }
    assert runs[..|runs|] == runs && calls[..|calls|] == calls;
    ResultsWhole(runs, made);
  }

  lemma MadeRest(a: seq<JoinRow>, b: seq<JoinRow>, x: seq<Group>, y: seq<Group>)
    requires MadeFrom(a, x) && MadeFrom(a + b, x + y)
    ensures MadeFrom(b, y)
  {
    forall k | 0 <= k < |y|
      ensures y[k].id == b[k].inId && y[k].payload == b[k].payload
    {
      assert (x + y)[|x| + k] == y[k] && (a + b)[|a| + k] == b[k];
    }
  }

  /** No group of `rows` occurs in `before`. */
  predicate AllNew(before: seq<JoinRow>, rows: seq<JoinRow>) {
    forall k :: 0 <= k < |rows| ==> !Occurs(before, rows[k].inId)
  }

  lemma AllNewFirst(before: seq<JoinRow>, rows: seq<JoinRow>)
    ensures |Filter(NewTo(before), FirstRows(rows))| == |FirstRows(rows)| <==> AllNew(before, rows)
  {
    var firsts := FirstRows(rows);
    FirstRowsFacts(rows);
    FilterAllIff(NewTo(before), firsts);
    forall k | 0 <= k < |rows|
      ensures exists j :: 0 <= j < |firsts| && firsts[j].inId == rows[k].inId
    {
      assert Occurs(rows, rows[k].inId);
      var j :| 0 <= j < |FirstIds(rows)| && FirstIds(rows)[j] == rows[k].inId;
      assert firsts[j].inId == rows[k].inId;
    }
    forall j | 0 <= j < |firsts|
      ensures exists k :: 0 <= k < |rows| && rows[k].inId == firsts[j].inId
    {
      assert FirstIds(rows)[j] in FirstIds(rows);
      assert Occurs(rows, firsts[j].inId);
    }
    hide Occurs, Filter, FirstRows;
    assert forall row :: NewTo(before)(row) <==> !Occurs(before, row.inId);
  }

  lemma CallAt(runs: seq<seq<JoinRow>>, made: seq<seq<Group>>, k: nat)
    requires ResultsOf(runs, made) && k < |runs|
    ensures Materialised(Concat(runs[..k]), Concat(made[..k]))
    ensures Materialised(Concat(runs[..k]) + runs[k], Concat(made[..k]) + made[k])
  {
    ConcatSnoc(runs[..k], runs[k]);
    ConcatSnoc(made[..k], made[k]);
    assert runs[..k + 1] == runs[..k] + [runs[k]] && made[..k + 1] == made[..k] + [made[k]];
    hide Materialised, Concat;
  }

  /** What a call makes: the groups of its rows that no row of an earlier call, failed or not, mentioned. So it
      makes all groups of its rows - what a single call would - exactly when none of them is old. */
  lemma LaterCall(runs: seq<seq<JoinRow>>, made: seq<seq<Group>>, k: nat)
    requires ResultsOf(runs, made) && k < |runs|
    ensures MadeFrom(Filter(NewTo(Concat(runs[..k])), FirstRows(runs[k])), made[k])
    ensures Materialised(runs[k], made[k]) <==> AllNew(Concat(runs[..k]), runs[k])
  {
    var before, rows := Concat(runs[..k]), runs[k];
    CallAt(runs, made, k);
    FirstRowsConcat(before, rows);
    AllNewFirst(before, rows);
    FilterAllIff(NewTo(before), FirstRows(rows));
    hide FirstRows, Filter, Concat, AllNew, ResultsOf;
    MadeRest(FirstRows(before), Filter(NewTo(before), FirstRows(rows)), Concat(made[..k]), made[k]);
  }

  lemma NothingNew(rows: seq<JoinRow>)
    ensures Filter(NewTo(rows), FirstRows(rows)) == []
  {
    FirstRowsFacts(rows);
    forall row | row in FirstRows(rows)
      ensures !NewTo(rows)(row)
    {
      var k :| 0 <= k < |rows| && rows[k] == row && !Occurs(rows[..k], row.inId);
      assert Occurs(rows, rows[k].inId);
    }
    FilterNone(NewTo(rows), FirstRows(rows));
  }

  /** An interceptor that calls the querier again over the same rows gets no groups: after a success the sets of
      the first call are still there, and after a failure its groups are lost as well. */
  lemma SecondCallEmpty(rows: seq<JoinRow>, failed: bool, made: seq<seq<Group>>)
    requires ResultsOf(RowsOf([Call(rows, failed), Call(rows, false)]), made)
    ensures Returned([Call(rows, failed), Call(rows, false)], made)[1] == Some([])
  {
    var runs := RowsOf([Call(rows, failed), Call(rows, false)]);
    LaterCall(runs, made, 1);
    assert runs[..1] == [rows];
    ConcatOne(rows);
    NothingNew(rows);
  }

  /** A concrete input: one link, and a first call that fails after its row. The retry returns no group, while a
      single call would have returned one. */
  lemma RetryExample(g: Group)
    requires g.id == 1 && g.payload == ""
    ensures var row := JoinRow(7, 1, "");
            var calls := [Call([row], true), Call([row], false)];
            && ResultsOf(RowsOf(calls), [[g], []]) && Returned(calls, [[g], []]) == [None, Some([])]
            && ResultsOf(RowsOf([Call([row], false)]), [[g]])
  {
    var row := JoinRow(7, 1, "");
    var calls := [Call([row], true), Call([row], false)];
    assert RowsOf(calls) == [[row]] + [[row]] && RowsOf([Call([row], false)]) == [[row]];
    assert [[g], []] == [[g]] + [[]];
    RetryResults(row, g);
    hide ResultsOf;
  }

  lemma RetryResults(row: JoinRow, g: Group)
    requires g.id == row.inId && g.payload == row.payload
    ensures ResultsOf([[row]], [[g]]) && ResultsOf([[row]] + [[row]], [[g]] + [[]])
  {
    NothingMade(map[]);
    ConcatOne([row]);
    ConcatOne([g]);
    OneRow(row);
    assert Concat<JoinRow>([]) + [row] == [row] && Concat<Group>([]) + [g] == [g];
    ResultsSnoc([], [], [row], [g]);
    assert [] + [[row]] == [[row]] && [] + [[g]] == [[g]];
    KnownSnoc([row], [g], row);
    assert [g] + [] == [g];
    ResultsSnoc([[row]], [[g]], [row], []);
  }

  // ---------------------------------------------------------------------------
  // Scattering the groups
  // ---------------------------------------------------------------------------

  function LinkFn(rows: seq<JoinRow>, account: int): Group -> bool {
    (g: Group) => Linked(rows, account, g.id)
  }

  /** What the list of the node at `i` must be after the groups `done` were scattered. */
  ghost function Share(nodes: seq<Account>, ids: seq<int>, rows: seq<JoinRow>, done: seq<Group>, i: nat): seq<Group>
    requires |ids| == |nodes| && i < |nodes|
  {
    if Owns(nodes, ids, i) then Filter(LinkFn(rows, ids[i]), done) else []
  }

  lemma InSetIffLinked(nodes: seq<Account>, ids: seq<int>, byID: map<int, Account>, rows: seq<JoinRow>,
                       nids: map<int, set<Account?>>, g: int, i: nat)
    requires Keyed(nodes, ids) && IsByID(nodes, ids, byID) && IsNids(byID, rows, nids) && g in nids
    requires i < |nodes|
    ensures nodes[i] in nids[g] <==> Owns(nodes, ids, i) && Linked(rows, ids[i], g)
  {
    if nodes[i] in nids[g] {
      assert Mentioned(byID, rows, g, nodes[i]);
      var k :| 0 <= k < |rows| && rows[k].inId == g && Find(byID, rows[k].outId) == nodes[i];
      assert ids[LastIndex(ids, rows[k].outId)] == ids[i];
    }
    if Owns(nodes, ids, i) && Linked(rows, ids[i], g) {
      var k :| 0 <= k < |rows| && rows[k].outId == ids[i] && rows[k].inId == g;
      assert Find(byID, rows[k].outId) == nodes[i];
    }
  }

  lemma SetMembersAreNodes(nodes: seq<Account>, ids: seq<int>, byID: map<int, Account>, rows: seq<JoinRow>,
                           nids: map<int, set<Account?>>, g: int, a: Account)
    requires |ids| == |nodes| && IsByID(nodes, ids, byID) && IsNids(byID, rows, nids) && g in nids && a in nids[g]
    ensures a in nodes
  {
    assert Mentioned(byID, rows, g, a);
    var k :| 0 <= k < |rows| && rows[k].inId == g && Find(byID, rows[k].outId) == a;
  }

  lemma ShareSnoc(nodes: seq<Account>, ids: seq<int>, rows: seq<JoinRow>, done: seq<Group>, g: Group, i: nat)
    requires |ids| == |nodes| && i < |nodes|
    ensures Share(nodes, ids, rows, done + [g], i) ==
            Share(nodes, ids, rows, done, i) + (if Owns(nodes, ids, i) && Linked(rows, ids[i], g.id) then [g] else [])
  {
    if Owns(nodes, ids, i) {
      FilterSnoc(LinkFn(rows, ids[i]), done, g);
    }
  }

  /** `for kn := range nodes { assign(kn, n) }`: the set is visited in some order, any order. */
  method AssignToAll(members: set<Account>, g: Group)
    modifies members`groups
    ensures forall a :: a in members ==> a.groups == old(a.groups) + [g]
  {
    var todo := members;
    while todo != {}
      invariant todo <= members
      invariant forall a :: a in members ==> a.groups == old(a.groups) + (if a in todo then [] else [g])
      decreases todo
    {
      var a :| a in todo;
      a.groups := a.groups + [g];
      todo := todo - {a};
    }
  }

  /** Every row of the group belongs to an account that was asked for. */
  predicate RowsInFilter(ids: seq<int>, rows: seq<JoinRow>, g: int) {
    forall k :: 0 <= k < |rows| && rows[k].inId == g ==> rows[k].outId in ids
  }

  lemma NilInSet(nodes: seq<Account>, ids: seq<int>, byID: map<int, Account>, rows: seq<JoinRow>,
                 nids: map<int, set<Account?>>, g: int)
    requires |ids| == |nodes| && IsByID(nodes, ids, byID) && IsNids(byID, rows, nids) && g in nids
    ensures null in nids[g] <==> !RowsInFilter(ids, rows, g)
  {
    if null in nids[g] {
      assert Mentioned(byID, rows, g, null);
    }
  }

  /** When the scatter of a neighbour goes through: some row mentions it, and every row that does
      belongs to an account that was asked for. */
  predicate Attachable(ids: seq<int>, rows: seq<JoinRow>, g: Group) {
    Occurs(rows, g.id) && RowsInFilter(ids, rows, g.id)
  }

  /** The error where it does not. */
  function AttachError(rows: seq<JoinRow>, g: Group): LoadError {
    if Occurs(rows, g.id) then NilNode else UnexpectedNode(g.id)
  }

  /** The members of the set of a group: the nodes that own their key and are linked to the group. */
  ghost predicate AreMembers(nodes: seq<Account>, ids: seq<int>, rows: seq<JoinRow>, g: int, members: set<Account>)
    requires |ids| == |nodes|
  {
    && (forall a :: a in members ==> a in nodes)
    && forall i :: 0 <= i < |nodes| ==> (nodes[i] in members <==> Owns(nodes, ids, i) && Linked(rows, ids[i], g))
  }

  lemma SetIsMembers(nodes: seq<Account>, ids: seq<int>, byID: map<int, Account>, rows: seq<JoinRow>,
                     nids: map<int, set<Account?>>, g: int, members: set<Account>)
    requires Keyed(nodes, ids) && IsByID(nodes, ids, byID) && IsNids(byID, rows, nids) && g in nids
    requires members == set a: Account | a in nids[g]
    ensures AreMembers(nodes, ids, rows, g, members)
  {
    forall a | a in members
      ensures a in nodes
    {
      SetMembersAreNodes(nodes, ids, byID, rows, nids, g, a);
    }
    forall i | 0 <= i < |nodes|
      ensures nodes[i] in members <==> Owns(nodes, ids, i) && Linked(rows, ids[i], g)
    {
      InSetIffLinked(nodes, ids, byID, rows, nids, g, i);
    }
  }

  /** Every node's list is its share of the groups `done`. */
  ghost predicate Shared(nodes: seq<Account>, ids: seq<int>, rows: seq<JoinRow>, done: seq<Group>)
    requires |ids| == |nodes|
    reads (set a | a in nodes)`groups
  {
    forall i :: 0 <= i < |nodes| ==> nodes[i].groups == Share(nodes, ids, rows, done, i)
  }

  lemma NothingShared(nodes: seq<Account>, ids: seq<int>, rows: seq<JoinRow>)
    requires |ids| == |nodes|
    requires forall i :: 0 <= i < |nodes| ==> nodes[i].groups == []
    ensures Shared(nodes, ids, rows, [])
  {
  }

  method Distribute(ghost nodes: seq<Account>, ghost ids: seq<int>, ghost rows: seq<JoinRow>, ghost done: seq<Group>,
                    members: set<Account>, g: Group)
    requires |ids| == |nodes| && AreMembers(nodes, ids, rows, g.id, members)
    requires Shared(nodes, ids, rows, done)
    modifies (set a | a in nodes)`groups
    ensures Shared(nodes, ids, rows, done + [g])
  {
    AssignToAll(members, g);
    forall i | 0 <= i < |nodes|
      ensures nodes[i].groups == Share(nodes, ids, rows, done + [g], i)
    {
      ShareSnoc(nodes, ids, rows, done, g, i);
    }
  }

  /** `nodes, ok := nids[n.ID]`, and whether the set can be walked without meeting nil. */
  method MembersOf(nodes: seq<Account>, ghost ids: seq<int>, ghost byID: map<int, Account>, rows: seq<JoinRow>,
                   nids: map<int, set<Account?>>, g: Group)
    returns (err: Option<LoadError>, members: set<Account>)
    requires Keyed(nodes, ids) && IsByID(nodes, ids, byID) && IsNids(byID, rows, nids)
    ensures err == if Attachable(ids, rows, g) then None else Some(AttachError(rows, g))
    ensures err.None? ==> AreMembers(nodes, ids, rows, g.id, members)
  {
    members := {};
    if g.id !in nids {
      return Some(UnexpectedNode(g.id)), members;
    }
    NilInSet(nodes, ids, byID, rows, nids, g.id);
    if null in nids[g.id] {
      return Some(NilNode), members;
    }
    members := set a: Account | a in nids[g.id];
    SetIsMembers(nodes, ids, byID, rows, nids, g.id, members);
    err := None;
  }

  /** One neighbour. */
  method AttachOne(nodes: seq<Account>, ghost ids: seq<int>, ghost byID: map<int, Account>, rows: seq<JoinRow>,
                   nids: map<int, set<Account?>>, ghost done: seq<Group>, g: Group)
    returns (err: Option<LoadError>)
    requires Keyed(nodes, ids) && IsByID(nodes, ids, byID) && IsNids(byID, rows, nids)
    requires Shared(nodes, ids, rows, done)
    modifies (set a | a in nodes)`groups
    ensures err == if Attachable(ids, rows, g) then None else Some(AttachError(rows, g))
    ensures err.None? ==> Shared(nodes, ids, rows, done + [g])
  {
    var members: set<Account>;
    err, members := MembersOf(nodes, ids, byID, rows, nids, g);
    if err.None? {
      Distribute(nodes, ids, rows, done, members, g);
    }
  }

  ghost predicate AllAttachable(ids: seq<int>, rows: seq<JoinRow>, groups: seq<Group>) {
    forall k :: 0 <= k < |groups| ==> Attachable(ids, rows, groups[k])
  }

  /** The neighbour at `k` is the first that cannot be attached. */
  ghost predicate FirstStray(ids: seq<int>, rows: seq<JoinRow>, groups: seq<Group>, k: int) {
    0 <= k < |groups| && AllAttachable(ids, rows, groups[..k]) && !Attachable(ids, rows, groups[k])
  }

  lemma AttachablePrefix(ids: seq<int>, rows: seq<JoinRow>, groups: seq<Group>, k: nat)
    requires k < |groups|
    ensures groups[..k + 1] == groups[..k] + [groups[k]]
    ensures AllAttachable(ids, rows, groups[..k + 1]) <==>
            AllAttachable(ids, rows, groups[..k]) && Attachable(ids, rows, groups[k])
    ensures !Attachable(ids, rows, groups[k]) ==> !AllAttachable(ids, rows, groups)
  {
    assert groups[..k + 1][k] == groups[k];
    assert forall j :: 0 <= j < k ==> groups[..k + 1][j] == groups[..k][j];
  }

  /** The loop over the neighbours. */
  method ScatterAll(nodes: seq<Account>, ghost ids: seq<int>, ghost byID: map<int, Account>, rows: seq<JoinRow>,
                    nids: map<int, set<Account?>>, neighbors: seq<Group>)
    returns (err: Option<LoadError>)
    requires Keyed(nodes, ids) && IsByID(nodes, ids, byID) && IsNids(byID, rows, nids)
    requires Shared(nodes, ids, rows, [])
    modifies (set a | a in nodes)`groups
    ensures err.None? <==> AllAttachable(ids, rows, neighbors)
    ensures err.None? ==> Shared(nodes, ids, rows, neighbors)
    ensures err.Some? ==>
              exists k :: FirstStray(ids, rows, neighbors, k) && err.value == AttachError(rows, neighbors[k])
  {
    ghost var done: seq<Group> := [];
    for k := 0 to |neighbors|
      invariant done == neighbors[..k]
      invariant AllAttachable(ids, rows, done)
      invariant Shared(nodes, ids, rows, done)
    {
      AttachablePrefix(ids, rows, neighbors, k);
      err := AttachOne(nodes, ids, byID, rows, nids, done, neighbors[k]);
      if err.Some? {
        assert FirstStray(ids, rows, neighbors, k);
        return;
      }
      done := done + [neighbors[k]];
    }
    assert done == neighbors;
    err := None;
  }

  /**
   The whole loader. The interceptors of the group query may call its querier any number of times, and calls
   may fail after some rows. `answer` is what they make of the results of those calls; `None` is a failure of
   the query or an error of theirs.
   */
  method Load(nodes: seq<Account>, calls: seq<Call>, answer: seq<Option<seq<Group>>> -> Option<seq<Group>>)
    returns (err: Option<LoadError>, ghost made: seq<seq<Group>>)
    modifies (set a | a in nodes)`groups
    ensures ResultsOf(RowsOf(calls), made) && Materialised(AllRows(calls), Concat(made))
    ensures forall k, g :: 0 <= k < |made| && g in made[k] ==> fresh(g)
    ensures var given := answer(Returned(calls, made));
            && (err.None? <==> given.Some? && AllAttachable(Ids(nodes), AllRows(calls), given.value))
            && (err.None? ==> Shared(nodes, Ids(nodes), AllRows(calls), given.value))
            && (given.None? ==> err == Some(QueryFailed))
            && (given.Some? && err.Some? ==>
                 exists k :: FirstStray(Ids(nodes), AllRows(calls), given.value, k) &&
                             err.value == AttachError(AllRows(calls), given.value[k]))
  {
    hide Concat, AllRows, Returned, Materialised, ResultsOf, IsNids;
    var ids, byID := IndexNodes(nodes);
    var results: seq<Option<seq<Group>>>, nids: map<int, set<Account?>>;
    made, results, nids := CallQuerier(byID, calls);
    var neighbors := answer(results);
    if neighbors.None? {
      err := Some(QueryFailed);
      return;
    }
    IdsKeyed(nodes);
    NothingShared(nodes, ids, AllRows(calls));
    err := ScatterAll(nodes, ids, byID, AllRows(calls), nids, neighbors.value);
  }

  // ---------------------------------------------------------------------------
  // Against the simple join
  // ---------------------------------------------------------------------------

  function GroupId(): Group -> int {
    (g: Group) => g.id
  }

  lemma {:induction false} FilterMaps(rows: seq<JoinRow>, account: int, groups: seq<Group>)
    ensures Map(GroupId(), Filter(LinkFn(rows, account), groups)) ==
            Filter(LinkedTo(rows, account), Map(GroupId(), groups))
  {
    if groups != [] {
      FilterMaps(rows, account, groups[1..]);
      assert Map(GroupId(), groups)[1..] == Map(GroupId(), groups[1..]);
      var rest := Filter(LinkFn(rows, account), groups[1..]);
      assert Map(GroupId(), [groups[0]] + rest) == [groups[0].id] + Map(GroupId(), rest);
    }
  }

  /** Without interceptors, a node that its key finds ends with exactly the groups the join links to it,
      each once, in the order of their first rows; with distinct keys that is every node. */
  lemma ShareIsJoin(nodes: seq<Account>, ids: seq<int>, rows: seq<JoinRow>, made: seq<Group>, i: nat)
    requires |ids| == |nodes| && i < |nodes| && Materialised(rows, made)
    ensures Owns(nodes, ids, i) ==> Map(GroupId(), Share(nodes, ids, rows, made, i)) == Batched(rows, ids[i])
    ensures Owns(nodes, ids, i) ==>
              multiset(Map(GroupId(), Share(nodes, ids, rows, made, i))) == multiset(Naive(rows, ids[i]))
    ensures Distinct(ids) ==> Owns(nodes, ids, i)
  {
    if Owns(nodes, ids, i) {
      FilterMaps(rows, ids[i], made);
      assert Map(GroupId(), made) == FirstIds(rows);
      BatchedIsJoin(rows, ids[i]);
    }
    if Distinct(ids) {
      DistinctOwns(nodes, ids, i);
    }
  }

  /** The other nodes, whose key a later node repeats, end with nothing: loading per node would give
      them the same groups, so with repeated keys the batch meets the join exactly on the nodes whose
      key finds them or that have no group. */
  lemma RepeatedKeyLosesGroups(nodes: seq<Account>, ids: seq<int>, rows: seq<JoinRow>, made: seq<Group>, i: nat)
    requires |ids| == |nodes| && i < |nodes| && Materialised(rows, made)
    ensures Map(GroupId(), Share(nodes, ids, rows, made, i)) == Batched(rows, ids[i]) <==>
            Owns(nodes, ids, i) || forall g :: !Linked(rows, ids[i], g)
  {
    ShareIsJoin(nodes, ids, rows, made, i);
    BatchedIsJoin(rows, ids[i]);
    var batch := Batched(rows, ids[i]);
    if batch != [] {
      assert batch[0] in batch;
    } else {
      assert forall g :: g !in batch;
    }
  }

  lemma OneLink(row: JoinRow, g: Group)
    requires g.id == row.inId && g.payload == row.payload
    ensures Materialised([row], [g]) && Filter(LinkFn([row], row.outId), [g]) == [g]
    ensures Batched([row], row.outId) == Naive([row], row.outId) == [row.inId]
  {
    var rows := [row];
    OneRow(row);
    assert Linked(rows, row.outId, row.inId) by {
      assert rows[0].outId == row.outId && rows[0].inId == row.inId;
    }
    hide FirstRows, FirstIds, Filter, Linked;
    FilterOne(LinkFn(rows, row.outId), g);
    FilterOne(LinkedTo(rows, row.outId), row.inId);
    FilterOne(RowOf(row.outId), row);
  }

  /** A concrete input: two nodes with key 7 and one link from 7 to group 1. The batch gives the group to
      the second node only, a query for each node would give it to both. */
  lemma RepeatedKeyExample(first: Account, second: Account, g: Group)
    requires first != second && g.id == 1 && g.payload == ""
    ensures var rows := [JoinRow(7, 1, "")];
            && Materialised(rows, [g])
            && Share([first, second], [7, 7], rows, [g], 0) == []
            && Share([first, second], [7, 7], rows, [g], 1) == [g]
            && Batched(rows, 7) == Naive(rows, 7) == [1]
  {
    OneLink(JoinRow(7, 1, ""), g);
    SecondOwns(first, second, 7);
    hide Filter, Batched, Naive, Materialised, LinkFn, Owns, LastIndex;
  }

  /** Every row belongs to an account that was asked for: the `IN` filter on the join table. */
  predicate InFilter(ids: seq<int>, rows: seq<JoinRow>) {
    forall k :: 0 <= k < |rows| ==> rows[k].outId in ids
  }

  lemma GroupOfRow(rows: seq<JoinRow>, made: seq<Group>, k: nat) returns (g: nat)
    requires Materialised(rows, made) && k < |rows|
    ensures g < |made| && made[g].id == rows[k].inId
  {
    FirstRowsFacts(rows);
    assert Occurs(rows, rows[k].inId);
    g :| 0 <= g < |FirstIds(rows)| && FirstIds(rows)[g] == rows[k].inId;
  }

  lemma GroupOccurs(rows: seq<JoinRow>, made: seq<Group>, k: nat)
    requires Materialised(rows, made) && k < |made|
    ensures Occurs(rows, made[k].id)
  {
    FirstRowsFacts(rows);
    assert FirstIds(rows)[k] == made[k].id;
    assert made[k].id in FirstIds(rows);
  }

  /** Without interceptors, the error exits are reached exactly when a row violates the `IN` filter. */
  lemma AttachableIffFiltered(ids: seq<int>, rows: seq<JoinRow>, made: seq<Group>)
    requires Materialised(rows, made)
    ensures AllAttachable(ids, rows, made) <==> InFilter(ids, rows)
  {
    if InFilter(ids, rows) {
      forall k | 0 <= k < |made|
        ensures Attachable(ids, rows, made[k])
      {
        GroupOccurs(rows, made, k);
      }
    }
    if AllAttachable(ids, rows, made) {
      forall k | 0 <= k < |rows|
        ensures rows[k].outId in ids
      {
        var g := GroupOfRow(rows, made, k);
        assert Attachable(ids, rows, made[g]);
      }
    }
  }
}
