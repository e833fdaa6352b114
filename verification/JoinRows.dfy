/**
 The theory of batched eager loading: what the rows of one join query say about each account, and how
 that compares with asking for each account separately (`loadGroups` of backend/ent/account_query.go).
 */
module JoinRows {
  import opened Seqs

  /** A row of the join: the account's key, then the columns of the group, its key first. */
  datatype JoinRow = JoinRow(outId: int, inId: int, payload: string)

  predicate Linked(rows: seq<JoinRow>, account: int, group: int) {
    exists k :: 0 <= k < |rows| && rows[k].outId == account && rows[k].inId == group
  }

  predicate Occurs(rows: seq<JoinRow>, group: int) {
    exists k :: 0 <= k < |rows| && rows[k].inId == group
  }

  /** The first row of each group, in order. */
  function FirstRows(rows: seq<JoinRow>): (r: seq<JoinRow>) {
    if rows == [] then []
    else
      var front, last := rows[..|rows| - 1], rows[|rows| - 1];
      FirstRows(front) + (if Occurs(front, last.inId) then [] else [last])
  }

  function InId(): JoinRow -> int {
    (row: JoinRow) => row.inId
  }

  /** The groups in the order in which they first occur. */
  function FirstIds(rows: seq<JoinRow>): seq<int> {
    Map(InId(), FirstRows(rows))
  }

  lemma OccursSnoc(front: seq<JoinRow>, last: JoinRow, g: int)
    ensures Occurs(front + [last], g) <==> Occurs(front, g) || g == last.inId
  {
    var rows := front + [last];
    if Occurs(front, g) {
      var k :| 0 <= k < |front| && front[k].inId == g;
      assert rows[k].inId == g;
    }
    if g == last.inId {
      assert rows[|front|].inId == g;
    }
    if Occurs(rows, g) && g != last.inId {
      var k :| 0 <= k < |rows| && rows[k].inId == g;
      assert front[k].inId == g;
    }
  }

  lemma {:induction false} FirstIdsMembers(rows: seq<JoinRow>)
    ensures forall g :: g in FirstIds(rows) <==> Occurs(rows, g)
    ensures Distinct(FirstIds(rows))
  {
    if rows != [] {
      var front, last := rows[..|rows| - 1], rows[|rows| - 1];
      FirstIdsMembers(front);
      FirstIdsSnoc(front, last);
      assert rows == front + [last];
      hide FirstIds, Occurs;
      forall g
        ensures g in FirstIds(rows) <==> Occurs(rows, g)
      {
        OccursSnoc(front, last, g);
      }
    }
  }

  /** The row at `k` is the first that mentions its group. */
  ghost predicate FirstOfGroup(rows: seq<JoinRow>, row: JoinRow) {
    exists k :: 0 <= k < |rows| && rows[k] == row && !Occurs(rows[..k], row.inId)
  }

  lemma {:induction false} FirstRowsAreFirst(rows: seq<JoinRow>)
    ensures forall row :: row in FirstRows(rows) ==> FirstOfGroup(rows, row)
  {
    if rows != [] {
      var front, last := rows[..|rows| - 1], rows[|rows| - 1];
      FirstRowsAreFirst(front);
      hide Occurs;
      forall row | row in FirstRows(rows)
        ensures FirstOfGroup(rows, row)
      {
        if row in FirstRows(front) {
          var k :| 0 <= k < |front| && front[k] == row && !Occurs(front[..k], row.inId);
          assert rows[..k] == front[..k];
          assert rows[k] == row;
        } else {
          assert rows[|rows| - 1] == row && rows[..|rows| - 1] == front;
        }
      }
    }
  }

  /** Every group that occurs is listed once, and comes from the first row that mentions it. */
  lemma FirstRowsFacts(rows: seq<JoinRow>)
    ensures forall g :: g in FirstIds(rows) <==> Occurs(rows, g)
    ensures Distinct(FirstIds(rows))
    ensures forall row :: row in FirstRows(rows) ==> FirstOfGroup(rows, row)
  {
    FirstIdsMembers(rows);
    FirstRowsAreFirst(rows);
  }

  lemma FirstIdsSnoc(front: seq<JoinRow>, last: JoinRow)
    ensures FirstIds(front + [last]) == FirstIds(front) + (if Occurs(front, last.inId) then [] else [last.inId])
  {
    assert (front + [last])[..|front|] == front;
    assert (front + [last])[|front|] == last;
  }

  lemma OccursConcat(a: seq<JoinRow>, b: seq<JoinRow>, g: int)
    ensures Occurs(a + b, g) <==> Occurs(a, g) || Occurs(b, g)
  {
    var all := a + b;
    if Occurs(a, g) {
      var k :| 0 <= k < |a| && a[k].inId == g;
      assert all[k].inId == g;
    }
    if Occurs(b, g) {
      var k :| 0 <= k < |b| && b[k].inId == g;
      assert all[|a| + k].inId == g;
    }
  }

  function NewTo(before: seq<JoinRow>): JoinRow -> bool {
    (row: JoinRow) => !Occurs(before, row.inId)
  }

  lemma FirstRowsSnoc(front: seq<JoinRow>, last: JoinRow)
    ensures FirstRows(front + [last]) == FirstRows(front) + (if Occurs(front, last.inId) then [] else [last])
  {
    assert (front + [last])[..|front|] == front;
  }

  lemma MoreFirstRows(before: seq<JoinRow>, front: seq<JoinRow>, last: JoinRow)
    requires FirstRows(before + front) == FirstRows(before) + Filter(NewTo(before), FirstRows(front))
    ensures FirstRows(before + front + [last]) ==
            FirstRows(before) + Filter(NewTo(before), FirstRows(front + [last]))
  {
    assert NewTo(before)(last) <==> !Occurs(before, last.inId);
    hide FirstRows, Occurs, Filter, NewTo;
    var base, had := FirstRows(before), Filter(NewTo(before), FirstRows(front));
    FirstRowsSnoc(front, last);
    FirstRowsSnoc(before + front, last);
    OccursConcat(before, front, last.inId);
    if Occurs(front, last.inId) {
      assert FirstRows(front) + [] == FirstRows(front) && base + had + [] == base + had;
    } else {
      FilterSnoc(NewTo(before), FirstRows(front), last);
      AppendLast(base, had, last, Occurs(before, last.inId));
    }
  }

  lemma AppendLast<T>(a: seq<T>, b: seq<T>, x: T, known: bool)
    ensures a + b + (if known then [] else [x]) == a + (b + (if known then [] else [x]))
  {
  }

  /** More rows add the first rows of exactly those groups that no earlier row mentioned. */
  lemma {:induction false} FirstRowsConcat(before: seq<JoinRow>, rows: seq<JoinRow>)
    ensures FirstRows(before + rows) == FirstRows(before) + Filter(NewTo(before), FirstRows(rows))
    decreases |rows|
  {
    hide FirstRows, Occurs, Filter, NewTo;
    if rows == [] {
      NoMoreRows(before);
      assert before + rows == before;
    } else {
      var n := |rows| - 1;
      var front, last := rows[..n], rows[n];
      FirstRowsConcat(before, front);
      MoreFirstRows(before, front, last);
      assert rows == front + [last];
      assert before + rows == before + front + [last];
    }
  }

  lemma NoMoreRows(before: seq<JoinRow>)
    ensures FirstRows(before) == FirstRows(before) + Filter(NewTo(before), FirstRows([]))
  {
  }

  lemma OneRow(row: JoinRow)
    ensures FirstRows([row]) == [row] && FirstIds([row]) == [row.inId]
  {
    assert [row][..0] == [];
    assert !Occurs([], row.inId);
  }

  // ---------------------------------------------------------------------------
  // What each account gets
  // ---------------------------------------------------------------------------

  function LinkedTo(rows: seq<JoinRow>, account: int): int -> bool {
    g => Linked(rows, account, g)
  }

  /** The groups of one account as the batch delivers them: the order of first occurrence in the whole
      stream, restricted to that account. */
  function Batched(rows: seq<JoinRow>, account: int): seq<int> {
    Filter(LinkedTo(rows, account), FirstIds(rows))
  }

  function RowOf(account: int): JoinRow -> bool {
    (row: JoinRow) => row.outId == account
  }

  /** The groups of one account as a query for that account alone delivers them. */
  function Naive(rows: seq<JoinRow>, account: int): seq<int> {
    FirstIds(Filter(RowOf(account), rows))
  }

  lemma NaiveMembers(rows: seq<JoinRow>, account: int, g: int)
    ensures Occurs(Filter(RowOf(account), rows), g) <==> Linked(rows, account, g)
  {
    var mine := Filter(RowOf(account), rows);
    if Occurs(mine, g) {
      var k :| 0 <= k < |mine| && mine[k].inId == g;
      assert mine[k] in mine;
      var j :| 0 <= j < |rows| && rows[j] == mine[k];
      assert rows[j].outId == account;
    }
    if Linked(rows, account, g) {
      var k :| 0 <= k < |rows| && rows[k].outId == account && rows[k].inId == g;
      assert rows[k] in rows;
      assert RowOf(account)(rows[k]);
      var j :| 0 <= j < |mine| && mine[j] == rows[k];
    }
  }

  lemma DistinctSameMembers<T>(a: seq<T>, b: seq<T>)
    requires Distinct(a) && Distinct(b)
    requires forall x :: x in a <==> x in b
    ensures multiset(a) == multiset(b)
  {
    DistinctMultiset(a);
    DistinctMultiset(b);
    forall x
      ensures multiset(a)[x] == multiset(b)[x]
    {
      if x in a {
        assert multiset(a)[x] == 1 && multiset(b)[x] == 1;
      } else {
        assert multiset(a)[x] == 0 && multiset(b)[x] == 0;
      }
    }
  }

  /** The batch gives each account exactly the groups linked to it, each once: as a collection, the
      same as asking for that account alone. */
  lemma BatchedIsJoin(rows: seq<JoinRow>, account: int)
    ensures Distinct(Batched(rows, account))
    ensures forall g :: g in Batched(rows, account) <==> Linked(rows, account, g)
    ensures multiset(Batched(rows, account)) == multiset(Naive(rows, account))
  {
    var mine := Filter(RowOf(account), rows);
    FirstRowsFacts(rows);
    FirstRowsFacts(mine);
    FilterDistinct(LinkedTo(rows, account), FirstIds(rows));
    forall g
      ensures g in Batched(rows, account) <==> Linked(rows, account, g)
      ensures g in Naive(rows, account) <==> Linked(rows, account, g)
    {
      NaiveMembers(rows, account, g);
      if Linked(rows, account, g) {
        assert LinkedTo(rows, account)(g);
        assert Occurs(rows, g);
      }
    }
    DistinctSameMembers(Batched(rows, account), Naive(rows, account));
  }

  // ---------------------------------------------------------------------------
  // Order: when the batch also preserves the per-account order
  // ---------------------------------------------------------------------------

  /** The position of the first row that mentions a group. */
  function FirstAt(rows: seq<JoinRow>, g: int): (k: nat)
    requires Occurs(rows, g)
    ensures k < |rows| && rows[k].inId == g && !Occurs(rows[..k], g)
    decreases |rows|
  {
    var front := rows[..|rows| - 1];
    if Occurs(front, g) then
      var k := FirstAt(front, g);
      assert rows[..k] == front[..k];
      k
    else
      assert rows == front + [rows[|rows| - 1]];
      |rows| - 1
  }

  /** The batch and the query for one account alone list that account's groups in the same order exactly
      when the groups first occur for the account in the order in which they first occur at all. */
  ghost predicate InStep(rows: seq<JoinRow>, account: int) {
    var own := Naive(rows, account);
    forall a, b :: 0 <= a < b < |own| && Occurs(rows, own[a]) && Occurs(rows, own[b]) ==>
      FirstAt(rows, own[a]) < FirstAt(rows, own[b])
  }

  lemma {:induction false} FirstIdsSorted(rows: seq<JoinRow>, a: nat, b: nat)
    requires a < b < |FirstIds(rows)|
    ensures Occurs(rows, FirstIds(rows)[a]) && Occurs(rows, FirstIds(rows)[b])
    ensures FirstAt(rows, FirstIds(rows)[a]) < FirstAt(rows, FirstIds(rows)[b])
  {
    var ids := FirstIds(rows);
    var front, last := rows[..|rows| - 1], rows[|rows| - 1];
    assert rows == front + [last];
    FirstRowsFacts(rows);
    FirstRowsFacts(front);
    FirstIdsSnoc(front, last);
    assert ids[a] in ids && ids[b] in ids;
    var n := |FirstIds(front)|;
    assert a < n;
    assert ids[a] == FirstIds(front)[a] && FirstIds(front)[a] in FirstIds(front);
    if b < n {
      assert ids[b] == FirstIds(front)[b] && FirstIds(front)[b] in FirstIds(front);
      FirstIdsSorted(front, a, b);
    }
  }

  /** A sequence is listed in the order of a rank. */
  ghost predicate Ranked(s: seq<int>, rows: seq<JoinRow>) {
    && (forall x :: x in s ==> Occurs(rows, x))
    && forall a, b :: 0 <= a < b < |s| ==> FirstAt(rows, s[a]) < FirstAt(rows, s[b])
  }

  lemma {:induction false} FilterRanked(keep: int -> bool, s: seq<int>, rows: seq<JoinRow>)
    requires Ranked(s, rows)
    ensures Ranked(Filter(keep, s), rows)
  {
    if s != [] {
      var rest := Filter(keep, s[1..]);
      FilterRanked(keep, s[1..], rows);
      assert Filter(keep, s) == if keep(s[0]) then [s[0]] + rest else rest by {
        assert [] + rest == rest;
      }
      if keep(s[0]) {
        forall x | x in rest
          ensures FirstAt(rows, s[0]) < FirstAt(rows, x)
        {
          var j :| 0 <= j < |s[1..]| && s[1..][j] == x;
          assert s[j + 1] == x;
        }
        hide Filter;
        RankedCons(s[0], rest, rows);
      }
    }
  }

  lemma RankedCons(x: int, rest: seq<int>, rows: seq<JoinRow>)
    requires Ranked(rest, rows) && Occurs(rows, x)
    requires forall y :: y in rest ==> FirstAt(rows, x) < FirstAt(rows, y)
    ensures Ranked([x] + rest, rows)
  {
    hide Occurs, FirstAt;
    var all := [x] + rest;
    forall a, b | 0 <= a < b < |all|
      ensures FirstAt(rows, all[a]) < FirstAt(rows, all[b])
    {
      assert all[b] == rest[b - 1] && rest[b - 1] in rest;
    }
  }

  lemma RankedDistinct(s: seq<int>, rows: seq<JoinRow>)
    requires Ranked(s, rows)
    ensures Distinct(s)
  {
    forall a, b | 0 <= a < b < |s|
      ensures s[a] != s[b]
    {
      assert s[a] in s;
      assert FirstAt(rows, s[a]) < FirstAt(rows, s[b]);
    }
  }

  lemma TailMembers<T>(s: seq<T>)
    requires s != [] && Distinct(s)
    ensures forall x :: x in s[1..] <==> x in s && x != s[0]
  {
    assert s == [s[0]] + s[1..];
  }

  lemma RankedSameHead(a: seq<int>, b: seq<int>, rows: seq<JoinRow>)
    requires Ranked(a, rows) && Ranked(b, rows) && (forall x :: x in a <==> x in b) && a != []
    ensures b != [] && a[0] == b[0]
  {
    assert a[0] in a;
    assert b[0] in b;
    var i :| 0 <= i < |b| && b[i] == a[0];
    var j :| 0 <= j < |a| && a[j] == b[0];
  }

  lemma {:induction false} RankedUnique(a: seq<int>, b: seq<int>, rows: seq<JoinRow>)
    requires Ranked(a, rows) && Ranked(b, rows) && forall x :: x in a <==> x in b
    ensures a == b
    decreases |a|
  {
    if a == [] {
      assert forall k :: 0 <= k < |b| ==> b[k] in b;
    } else {
      RankedSameHead(a, b, rows);
      RankedDistinct(a, rows);
      RankedDistinct(b, rows);
      TailMembers(a);
      TailMembers(b);
      RankedUnique(a[1..], b[1..], rows);
    }
  }

  lemma BatchedRanked(rows: seq<JoinRow>, account: int)
    ensures Ranked(Batched(rows, account), rows)
  {
    FirstRowsFacts(rows);
    var ids := FirstIds(rows);
    forall a, b | 0 <= a < b < |ids|
      ensures Occurs(rows, ids[a]) && Occurs(rows, ids[b]) && FirstAt(rows, ids[a]) < FirstAt(rows, ids[b])
    {
      FirstIdsSorted(rows, a, b);
    }
    FilterRanked(LinkedTo(rows, account), ids, rows);
  }

  lemma OrderKeptIff(rows: seq<JoinRow>, account: int)
    ensures Batched(rows, account) == Naive(rows, account) <==> InStep(rows, account)
  {
    BatchedIsJoin(rows, account);
    BatchedRanked(rows, account);
    PermutedMembers(Batched(rows, account), Naive(rows, account));
    if InStep(rows, account) {
      RankedUnique(Batched(rows, account), Naive(rows, account), rows);
    }
  }

  /** The rows of each group stand together, as when the query is ordered by a key of the group. */
  predicate Contiguous(rows: seq<JoinRow>) {
    forall i, j, k :: 0 <= i < j < k < |rows| && rows[i].inId == rows[k].inId ==> rows[j].inId == rows[i].inId
  }

  lemma FilterFind<T>(keep: T -> bool, s: seq<T>, j: nat) returns (k: nat)
    requires j < |Filter(keep, s)|
    ensures k < |s| && s[k] == Filter(keep, s)[j]
  {
    assert Filter(keep, s)[j] in s;
    k :| 0 <= k < |s| && s[k] == Filter(keep, s)[j];
  }

  lemma {:induction false} FilterOrder<T>(keep: T -> bool, s: seq<T>, i: nat, j: nat) returns (p: nat, q: nat)
    requires i < j < |Filter(keep, s)|
    ensures p < q < |s| && s[p] == Filter(keep, s)[i] && s[q] == Filter(keep, s)[j]
    decreases |s|
  {
    var rest := Filter(keep, s[1..]);
    assert Filter(keep, s) == (if keep(s[0]) then [s[0]] else []) + rest;
    hide Filter;
    if !keep(s[0]) {
      assert Filter(keep, s) == rest;
      p, q := FilterOrder(keep, s[1..], i, j);
      p, q := p + 1, q + 1;
    } else {
      assert Filter(keep, s) == [s[0]] + rest;
      if i == 0 {
        var k := FilterFind(keep, s[1..], j - 1);
        p, q := 0, k + 1;
      } else {
        p, q := FilterOrder(keep, s[1..], i - 1, j - 1);
        p, q := p + 1, q + 1;
      }
    }
  }

  lemma OwnPositions(rows: seq<JoinRow>, account: int, a: nat, b: nat) returns (p: nat, q: nat)
    requires a < b < |Naive(rows, account)|
    ensures p < q < |rows| && rows[p].inId == Naive(rows, account)[a] && rows[q].inId == Naive(rows, account)[b]
  {
    var mine := Filter(RowOf(account), rows);
    FirstIdsSorted(mine, a, b);
    p, q := FilterOrder(RowOf(account), rows, FirstAt(mine, FirstIds(mine)[a]), FirstAt(mine, FirstIds(mine)[b]));
  }

  lemma ContiguousRank(rows: seq<JoinRow>, x: int, y: int, p: nat, q: nat)
    requires Contiguous(rows) && x != y
    requires p < q < |rows| && rows[p].inId == x && rows[q].inId == y
    ensures Occurs(rows, x) && Occurs(rows, y) && FirstAt(rows, x) < FirstAt(rows, y)
  {
    FirstNotLater(rows, x, p);
    FirstNotLater(rows, y, q);
    var f := FirstAt(rows, y);
    assert rows[f].inId == rows[q].inId;
    assert f != p && !(f < p < q);
  }

  /** A query that keeps the rows of each group together keeps the order for every account. */
  lemma OrderKeptWhenContiguous(rows: seq<JoinRow>, account: int)
    requires Contiguous(rows)
    ensures Batched(rows, account) == Naive(rows, account)
  {
    var own := Naive(rows, account);
    FirstRowsFacts(Filter(RowOf(account), rows));
    forall a, b | 0 <= a < b < |own|
      ensures Occurs(rows, own[a]) && Occurs(rows, own[b]) && FirstAt(rows, own[a]) < FirstAt(rows, own[b])
    {
      var p, q := OwnPositions(rows, account, a, b);
      ContiguousRank(rows, own[a], own[b], p, q);
    }
    OrderKeptIff(rows, account);
  }

  lemma FirstNotLater(rows: seq<JoinRow>, g: int, p: nat)
    requires p < |rows| && rows[p].inId == g
    ensures Occurs(rows, g) && FirstAt(rows, g) <= p
  {
    var k := FirstAt(rows, g);
    assert forall x :: 0 <= x < k ==> rows[..k][x] == rows[x];
  }

  /** Links 1-7, 2-8, 2-7. */
  const EXAMPLE: seq<JoinRow> := [JoinRow(1, 7, ""), JoinRow(2, 8, ""), JoinRow(2, 7, "")]

  lemma TwoFirst(a: JoinRow, b: JoinRow)
    requires a.inId != b.inId
    ensures FirstRows([a, b]) == [a, b] && FirstIds([a, b]) == [a.inId, b.inId]
  {
    assert !Occurs([a], b.inId);
    OneRow(a);
    hide FirstRows, Occurs;
    FirstRowsSnoc([a], b);
    FirstIdsSnoc([a], b);
    hide FirstIds;
    assert [a, b] == [a] + [b] && [a.inId, b.inId] == [a.inId] + [b.inId];
  }

  lemma ExampleFirst()
    ensures FirstIds(EXAMPLE) == [7, 8]
  {
    var front := [EXAMPLE[0], EXAMPLE[1]];
    TwoFirst(EXAMPLE[0], EXAMPLE[1]);
    assert EXAMPLE == front + [EXAMPLE[2]];
    assert front[0].inId == 7;
    FirstIdsSnoc(front, EXAMPLE[2]);
  }

  lemma ExampleNaive()
    ensures Naive(EXAMPLE, 2) == [8, 7]
  {
    var r1, r2 := EXAMPLE[1], EXAMPLE[2];
    assert EXAMPLE[1..] == [r1, r2] && [r1, r2][1..] == [r2] && [r2][1..] == [];
    assert Filter(RowOf(2), [r2]) == [r2];
    assert Filter(RowOf(2), EXAMPLE) == [r1, r2];
    TwoFirst(r1, r2);
  }

  /** The order is not kept in general: in the example account 2 alone lists 8 before 7, the batch
      lists 7 before 8. */
  lemma OrderNotAlwaysKept()
    ensures Batched(EXAMPLE, 2) == [7, 8] && Naive(EXAMPLE, 2) == [8, 7]
  {
    ExampleFirst();
    ExampleNaive();
    assert EXAMPLE[1].outId == 2 && EXAMPLE[1].inId == 8;
    assert EXAMPLE[2].outId == 2 && EXAMPLE[2].inId == 7;
    assert LinkedTo(EXAMPLE, 2)(7) && LinkedTo(EXAMPLE, 2)(8);
    FilterAllIff(LinkedTo(EXAMPLE, 2), [7, 8]);
  }

  // ---------------------------------------------------------------------------
  // Scattering in any order
  // ---------------------------------------------------------------------------

  /** The edge lists, by account. */
  type EdgeLists = map<int, seq<int>>

  /** `for kn := range nodes { assign(kn, n) }`, for one order of visiting. */
  function Visit(edges: EdgeLists, order: seq<int>, group: int): (r: EdgeLists)
    requires forall k :: 0 <= k < |order| ==> order[k] in edges
    ensures r.Keys == edges.Keys
    decreases |order|
  {
    if order == [] then edges
    else
      Visit(edges[order[0] := edges[order[0]] + [group]], order[1..], group)
  }

  lemma {:induction false} VisitOnce(edges: EdgeLists, order: seq<int>, group: int, a: int)
    requires forall k :: 0 <= k < |order| ==> order[k] in edges
    requires Distinct(order) && a in edges
    ensures Visit(edges, order, group)[a] == edges[a] + (if a in order then [group] else [])
    decreases |order|
  {
    if order != [] {
      assert order == [order[0]] + order[1..];
      assert order[0] !in order[1..];
      VisitOnce(edges[order[0] := edges[order[0]] + [group]], order[1..], group, a);
    } else {
      assert edges[a] + [] == edges[a];
    }
  }

  /** The whole scatter, with one order of visiting per group. */
  function Scatter(edges: EdgeLists, groups: seq<int>, orders: seq<seq<int>>): (r: EdgeLists)
    requires |orders| == |groups|
    requires forall k, j :: 0 <= k < |orders| && 0 <= j < |orders[k]| ==> orders[k][j] in edges
    ensures r.Keys == edges.Keys
    decreases |groups|
  {
    if groups == [] then edges
    else
      var front := |groups| - 1;
      Visit(Scatter(edges, groups[..front], orders[..front]), orders[front], groups[front])
  }

  /** `order` enumerates, without repeats, the accounts that the rows link to `group`. */
  ghost predicate Lists(rows: seq<JoinRow>, accounts: set<int>, group: int, order: seq<int>) {
    && Distinct(order)
    && (forall j :: 0 <= j < |order| ==> order[j] in accounts)
    && forall a :: a in accounts ==> (a in order <==> Linked(rows, a, group))
  }

  ghost predicate Enumerates(rows: seq<JoinRow>, accounts: set<int>, groups: seq<int>, orders: seq<seq<int>>) {
    |orders| == |groups| && forall k :: 0 <= k < |groups| ==> Lists(rows, accounts, groups[k], orders[k])
  }

  lemma EnumeratesIn(rows: seq<JoinRow>, accounts: set<int>, groups: seq<int>, orders: seq<seq<int>>)
    requires Enumerates(rows, accounts, groups, orders)
    ensures forall k, j :: 0 <= k < |orders| && 0 <= j < |orders[k]| ==> orders[k][j] in accounts
  {
    forall k, j | 0 <= k < |orders| && 0 <= j < |orders[k]|
      ensures orders[k][j] in accounts
    {
      assert Lists(rows, accounts, groups[k], orders[k]);
    }
  }

  function ScatterIn(rows: seq<JoinRow>, edges: EdgeLists, groups: seq<int>, orders: seq<seq<int>>): (r: EdgeLists)
    requires Enumerates(rows, edges.Keys, groups, orders)
    ensures r.Keys == edges.Keys
  {
    EnumeratesIn(rows, edges.Keys, groups, orders);
    Scatter(edges, groups, orders)
  }

  /** Whatever order the map iteration takes for each group, each account ends with the in-order
      restriction of the groups to those linked to it. */
  lemma {:induction false} ScatterAnyOrder(rows: seq<JoinRow>, edges: EdgeLists, groups: seq<int>,
                                           orders: seq<seq<int>>, a: int)
    requires Enumerates(rows, edges.Keys, groups, orders) && a in edges
    ensures ScatterIn(rows, edges, groups, orders)[a] == edges[a] + Filter(LinkedTo(rows, a), groups)
    decreases |groups|
  {
    if groups == [] {
      assert edges[a] + [] == edges[a];
    } else {
      var front := |groups| - 1;
      EnumeratesIn(rows, edges.Keys, groups, orders);
      ScatterAnyOrder(rows, edges, groups[..front], orders[..front], a);
      var before := ScatterIn(rows, edges, groups[..front], orders[..front]);
      assert Lists(rows, edges.Keys, groups[front], orders[front]);
      VisitOnce(before, orders[front], groups[front], a);
      FilterSnoc(LinkedTo(rows, a), groups[..front], groups[front]);
      assert groups == groups[..front] + [groups[front]];
      ScatterStep(edges[a], Filter(LinkedTo(rows, a), groups[..front]), LinkedTo(rows, a)(groups[front]),
                  groups[front]);
    }
  }

  lemma ScatterStep(start: seq<int>, had: seq<int>, linked: bool, g: int)
    ensures start + had + (if linked then [g] else []) == start + (had + (if linked then [g] else []))
  {
  }

  /** So two runs that visit in different orders end with identical edge lists. */
  lemma ScatterOrderIrrelevant(rows: seq<JoinRow>, edges: EdgeLists, groups: seq<int>, x: seq<seq<int>>,
                               y: seq<seq<int>>)
    requires Enumerates(rows, edges.Keys, groups, x) && Enumerates(rows, edges.Keys, groups, y)
    ensures ScatterIn(rows, edges, groups, x) == ScatterIn(rows, edges, groups, y)
  {
    forall a | a in edges.Keys
      ensures ScatterIn(rows, edges, groups, x)[a] == ScatterIn(rows, edges, groups, y)[a]
    {
      ScatterAnyOrder(rows, edges, groups, x, a);
      ScatterAnyOrder(rows, edges, groups, y, a);
    }
  }
}
