/**
 Running an account query (`querySpec` and `sqlAll` of backend/ent/account_query.go): the columns it
 selects, the nodes it makes, and the edges it loads onto them.
 */
module AccountQuery {
  import opened Text
  import opened Seqs
  import opened AccountEntity
  import opened JoinRows
  import opened AccountNodes
  import opened KeyGroups
  import NodeIndex
  import LoadGroups
  import LoadProxy
  import LoadChildren

  // ---------------------------------------------------------------------------
  // querySpec: the column list
  // ---------------------------------------------------------------------------

  /** `account.Columns`. */
  const ALL_COLUMNS: seq<Column> := [
    ID, CreatedAt, UpdatedAt, DeletedAt, Name, Notes, Platform, Type, Credentials, Extra, ProxyID, Concurrency,
    LoadFactor, Priority, RateMultiplier, Status, ErrorMessage, LastUsedAt, ExpiresAt, AutoPauseOnExpired,
    Schedulable, RateLimitedAt, RateLimitResetAt, OverloadUntil, TempUnschedulableUntil, TempUnschedulableReason,
    SessionWindowStart, SessionWindowEnd, SessionWindowStatus]

  function OtherThan<T(==)>(x: T): T -> bool {
    y => y != x
  }

  /** The columns of a query for given fields: the key, the other fields, and the foreign key if it is
      needed and not there yet. */
  function Projected<T(==)>(id: T, fk: T, fields: seq<T>, withFk: bool): seq<T> {
    var columns := [id] + Filter(OtherThan(id), fields);
    if withFk && fk !in columns then columns + [fk] else columns
  }

  /** The columns of a query; no fields means all columns. */
  function QueryColumns(fields: seq<Column>, withProxy: bool): seq<Column> {
    if fields == [] then ALL_COLUMNS else Projected(ID, ProxyID, fields, withProxy)
  }

  lemma OneMoreField<T>(id: T, fields: seq<T>, i: nat)
    requires i < |fields|
    ensures Filter(OtherThan(id), fields[..i + 1]) ==
            Filter(OtherThan(id), fields[..i]) + (if fields[i] != id then [fields[i]] else [])
  {
    assert fields[..i + 1] == fields[..i] + [fields[i]];
    FilterSnoc(OtherThan(id), fields[..i], fields[i]);
  }

  method CompileProjection<T(==)>(id: T, fk: T, fields: seq<T>, withFk: bool) returns (columns: seq<T>)
    ensures columns == Projected(id, fk, fields, withFk)
  {
    columns := [id];
    for i := 0 to |fields|
      invariant columns == [id] + Filter(OtherThan(id), fields[..i])
    {
      OneMoreField(id, fields, i);
      hide Filter, OtherThan;
      if fields[i] != id {
        columns := columns + [fields[i]];
      }
    }
    assert fields[..|fields|] == fields;
    if withFk && fk !in columns {
      columns := columns + [fk];
    }
  }

  method CompileColumns(fields: seq<Column>, withProxy: bool) returns (columns: seq<Column>)
    ensures columns == QueryColumns(fields, withProxy)
  {
    if |fields| > 0 {
      columns := CompileProjection(ID, ProxyID, fields, withProxy);
    } else {
      columns := ALL_COLUMNS;
    }
  }

  lemma NoKeyLeft<T>(id: T, fields: seq<T>)
    ensures id !in Filter(OtherThan(id), fields)
    ensures forall c :: c in Filter(OtherThan(id), fields) <==> c in fields && c != id
  {
    assert !OtherThan(id)(id);
    assert forall c :: OtherThan(id)(c) <==> c != id;
  }

  /** For any requested fields, repeats included: the key comes first and only there, every requested
      field is selected, the foreign key is selected when it is needed, and nothing else is. */
  lemma ProjectedColumns<T>(id: T, fk: T, fields: seq<T>, withFk: bool)
    requires id != fk
    ensures var columns := Projected(id, fk, fields, withFk);
            && columns[0] == id && id !in columns[1..]
            && (forall c :: c in fields ==> c in columns)
            && (withFk ==> fk in columns)
            && forall c :: c in columns ==> c == id || c in fields || (withFk && c == fk)
  {
    var rest := Filter(OtherThan(id), fields);
    NoKeyLeft(id, fields);
    var columns := Projected(id, fk, fields, withFk);
    if withFk && fk !in [id] + rest {
      assert columns == [id] + rest + [fk];
      assert columns[1..] == rest + [fk];
    } else {
      assert columns[1..] == rest;
    }
  }

  /** Every cell of the row is one its column can hold. */
  ghost predicate RowOk(codec: Codec, row: Row) {
    forall c: Column :: CellOk(codec, c, row(c))
  }

  lemma SameKeys(codec: Codec, a: seq<Column>, b: seq<Column>, row: Row)
    requires RowOk(codec, row)
    requires ID in a && ID in b && ProxyID in a && ProxyID in b
    ensures var x, y := ReadRow(codec, a, row), ReadRow(codec, b, row);
            && x.error.None? && y.error.None?
            && x.fields.ints.id == y.fields.ints.id && x.fields.ints.proxyID == y.fields.ints.proxyID
  {
    ReadRowGet(codec, a, row, ID);
    ReadRowGet(codec, b, row, ID);
    ReadRowGet(codec, a, row, ProxyID);
    ReadRowGet(codec, b, row, ProxyID);
    KeysFromGet(ReadRow(codec, a, row).fields, ReadRow(codec, b, row).fields);
  }

  lemma AllColumnsHasKeys()
    ensures ID in ALL_COLUMNS && ProxyID in ALL_COLUMNS
  {
    assert ALL_COLUMNS[0] == ID && ALL_COLUMNS[10] == ProxyID;
  }

  /** Without requested fields every known column is selected. */
  lemma AllColumnsKnown(d: Column)
    requires !d.Other?
    ensures d in ALL_COLUMNS
  {
  }

  /** The value stored in a cell; nothing if it is empty. */
  function StoredVal(codec: Codec, cell: Cell): Option<Val> {
    match cell
    case NULL => None
    case CInt(i) => Some(VInt(i))
    case CTime(t) => Some(VTime(t))
    case CStr(s) => Some(VStr(s))
    case CFloat(f) => Some(VFloat(f))
    case CBool(b) => Some(VBool(b))
    case CBytes(bytes) =>
      if bytes == [] || codec.unmarshal(bytes).None? then None else Some(VJson(codec.unmarshal(bytes).value))
  }

  lemma StoredIsCellVal(codec: Codec, c: Column, cell: Cell)
    requires !c.Other? && CellOk(codec, c, cell)
    ensures StoredVal(codec, cell).None? <==> Absent(cell)
    ensures !Absent(cell) ==> StoredVal(codec, cell) == Some(CellVal(codec, c, cell))
  {
  }

  /** A record shows, for every requested column - every known one if none was requested - the value stored in the
      row, or the zero value where nothing is stored. */
  ghost predicate ShowsRow(codec: Codec, fields: seq<Column>, row: Row, a: Fields) {
    forall d: Column :: !d.Other? && (fields == [] || d in fields) ==>
      Get(a, d) == if StoredVal(codec, row(d)).Some? then StoredVal(codec, row(d)) else Get(ZERO, d)
  }

  lemma ReadShows(codec: Codec, fields: seq<Column>, withProxy: bool, row: Row)
    requires RowOk(codec, row)
    ensures ShowsRow(codec, fields, row, ReadRow(codec, QueryColumns(fields, withProxy), row).fields)
  {
    var columns := QueryColumns(fields, withProxy);
    forall d: Column | !d.Other? && (fields == [] || d in fields)
      ensures Get(ReadRow(codec, columns, row).fields, d) ==
              if StoredVal(codec, row(d)).Some? then StoredVal(codec, row(d)) else Get(ZERO, d)
    {
      if fields == [] {
        AllColumnsKnown(d);
      } else {
        ProjectedColumns(ID, ProxyID, fields, withProxy);
      }
      hide QueryColumns, ReadRow, Get, CellVal, StoredVal;
      ReadRowGet(codec, columns, row, d);
      StoredIsCellVal(codec, d, row(d));
    }
  }

  lemma KeysFromGet(a: Fields, b: Fields)
    requires Get(a, ID) == Get(b, ID) && Get(a, ProxyID) == Get(b, ProxyID)
    ensures a.ints.id == b.ints.id && a.ints.proxyID == b.ints.proxyID
  {
  }

  lemma QueryHasKeys(fields: seq<Column>)
    ensures ID in QueryColumns(fields, true) && ProxyID in QueryColumns(fields, true)
  {
    AllColumnsHasKeys();
    if fields != [] {
      ProjectedColumns(ID, ProxyID, fields, true);
      assert ID in Projected(ID, ProxyID, fields, true);
    }
  }

  /** Projection does not change what eager loading needs: for every row, any two lists of requested
      fields (no fields: all columns) give the node the same key and the same foreign key. */
  lemma ProjectionKeepsKeys(codec: Codec, f: seq<Column>, g: seq<Column>, row: Row)
    requires RowOk(codec, row)
    ensures var x, y := ReadRow(codec, QueryColumns(f, true), row), ReadRow(codec, QueryColumns(g, true), row);
            && x.error.None? && y.error.None?
            && x.fields.ints.id == y.fields.ints.id && x.fields.ints.proxyID == y.fields.ints.proxyID
  {
    QueryHasKeys(f);
    QueryHasKeys(g);
    SameKeys(codec, QueryColumns(f, true), QueryColumns(g, true), row);
  }

  // ---------------------------------------------------------------------------
  // sqlAll
  // ---------------------------------------------------------------------------

  datatype QueryError =
    | NodesFailed | Scan(error: ScanError) | GroupsError(g: LoadGroups.LoadError)
    | ProxyError(p: LoadProxy.LoadError) | LogsError(u: LoadChildren.LoadError)

  /** The group query for some account keys: the calls of its querier that its interceptors make, and what they
      make of the results; `None` is a failure of the query or an error of theirs. */
  datatype GroupQuery = GroupQuery(calls: seq<LoadGroups.Call>,
                                   answer: seq<Option<seq<Group>>> -> Option<seq<Group>>)

  /** Without interceptors the querier is called once, and its result or its failure returned. */
  function PlainQuery(call: LoadGroups.Call): GroupQuery {
    GroupQuery([call], (results: seq<Option<seq<Group>>>) => if results == [] then None else results[0])
  }

  /** The edges to load, with the queries that fetch their neighbours. */
  datatype Edges = Edges(
    groups: Option<seq<int> -> GroupQuery>,
    proxies: Option<seq<int> -> Option<seq<Proxy>>>,
    logs: Option<seq<int> -> Option<seq<UsageLog>>>)

  function LoadedOf(e: Edges): Loaded {
    Loaded(e.groups.Some?, e.proxies.Some?, e.logs.Some?)
  }

  ghost predicate Unfilled(nodes: seq<Account>, e: Edges)
    reads nodes
  {
    && (forall i, j :: 0 <= i < j < |nodes| ==> nodes[i] != nodes[j])
    && forall i :: 0 <= i < |nodes| ==>
         nodes[i].loaded == LoadedOf(e) && nodes[i].groups == [] && nodes[i].proxy == None && nodes[i].usageLogs == []
  }

  /** The node of each row, as `Assign` leaves it. */
  ghost predicate ReadFrom(codec: Codec, columns: seq<Column>, rows: seq<Row>, nodes: seq<Account>)
    reads (set a | a in nodes)`fields
  {
    && |nodes| == |rows|
    && forall i :: 0 <= i < |rows| ==>
         ReadRow(codec, columns, rows[i]).error.None? && nodes[i].fields == ReadRow(codec, columns, rows[i]).fields
  }

  /** `sqlgraph.QueryNodes` with the closures `ScanValues` and `Assign`. */
  method MakeNodes(codec: Codec, columns: seq<Column>, rows: seq<Row>, e: Edges)
    returns (err: Option<QueryError>, nodes: seq<Account>)
    ensures fresh(set a | a in nodes)
    ensures err.None? <==> forall i :: 0 <= i < |rows| ==> ReadRow(codec, columns, rows[i]).error.None?
    ensures err.None? ==> Unfilled(nodes, e) && ReadFrom(codec, columns, rows, nodes)
  {
    nodes := [];
    for i := 0 to |rows|
      invariant fresh(set a | a in nodes)
      invariant Unfilled(nodes, e) && ReadFrom(codec, columns, rows[..i], nodes)
    {
      var node := new Account(LoadedOf(e));
      var failed := node.AssignValues(codec, columns, Scanned(columns, rows[i]));
      if failed.Some? {
        return Some(Scan(failed.value)), [];
      }
      nodes := nodes + [node];
      assert rows[..i + 1] == rows[..i] + [rows[i]];
    }
    assert rows[..|rows|] == rows;
    err := None;
  }

  /** The results of the querier's calls, each group made once from its first row. */
  ghost predicate GroupsMade(e: Edges, ids: seq<int>, made: seq<seq<Group>>) {
    e.groups.Some? ==>
      var q := e.groups.value(ids);
      && LoadGroups.ResultsOf(LoadGroups.RowsOf(q.calls), made)
      && LoadGroups.Materialised(LoadGroups.AllRows(q.calls), Concat(made))
  }

  /** The groups edge after a successful query. */
  ghost predicate GroupsLoaded(nodes: seq<Account>, e: Edges, made: seq<seq<Group>>)
    reads (set a | a in nodes)`groups, (set a | a in nodes)`fields
  {
    if nodes != [] && e.groups.Some? then
      var ids := Ids(nodes);
      var q := e.groups.value(ids);
      var given := q.answer(LoadGroups.Returned(q.calls, made));
      given.Some? && LoadGroups.Shared(nodes, ids, LoadGroups.AllRows(q.calls), given.value)
    else forall i :: 0 <= i < |nodes| ==> nodes[i].groups == []
  }

  /** The proxies the query fetched. */
  ghost function Fetched(nodes: seq<Account>, e: Edges): Option<seq<Proxy>>
    reads (set a | a in nodes)`fields
  {
    var ks := FirstKeys(LoadProxy.Keys(nodes));
    if e.proxies.None? || ks == [] then Some([]) else e.proxies.value(ks)
  }

  ghost predicate ProxiesLoaded(nodes: seq<Account>, e: Edges)
    reads (set a | a in nodes)`proxy, (set a | a in nodes)`fields
  {
    && Fetched(nodes, e).Some?
    && forall i :: 0 <= i < |nodes| ==>
         nodes[i].proxy == LoadProxy.ProxyFor(Fetched(nodes, e).value, nodes[i].ProxyKey(), None)
  }

  ghost predicate LogsLoaded(nodes: seq<Account>, e: Edges)
    reads (set a | a in nodes)`usageLogs, (set a | a in nodes)`fields
  {
    if nodes != [] && e.logs.Some? then
      e.logs.value(Ids(nodes)).Some? && LoadChildren.Dealing(nodes, Ids(nodes), e.logs.value(Ids(nodes)).value)
    else forall i :: 0 <= i < |nodes| ==> nodes[i].usageLogs == []
  }

  lemma KeptSame(nodes: seq<Account>, keys: seq<Option<int>>, held: seq<Option<Proxy>>, fetched: seq<Proxy>)
    requires |nodes| == |keys| == |held| && keys == LoadProxy.Keys(nodes)
    requires forall i :: 0 <= i < |held| ==> held[i] == None
    requires LoadProxy.LookedUp(nodes, keys, held, fetched)
    ensures forall i :: 0 <= i < |nodes| ==> nodes[i].proxy == LoadProxy.ProxyFor(fetched, nodes[i].ProxyKey(), None)
  {
  }

  // When each edge loads: its query succeeds and its answer satisfies the filter it was given.

  ghost predicate GroupsOk(e: Edges, ids: seq<int>, made: seq<seq<Group>>) {
    e.groups.Some? ==>
      var q := e.groups.value(ids);
      var given := q.answer(LoadGroups.Returned(q.calls, made));
      given.Some? && LoadGroups.AllAttachable(ids, LoadGroups.AllRows(q.calls), given.value)
  }

  predicate ProxiesOk(e: Edges, keys: seq<Option<int>>) {
    var ks := FirstKeys(keys);
    e.proxies.Some? && ks != [] ==>
      e.proxies.value(ks).Some? && LoadProxy.AllKnown(ks, e.proxies.value(ks).value)
  }

  predicate LogsOk(e: Edges, ids: seq<int>) {
    e.logs.Some? ==>
      e.logs.value(ids).Some? && LoadChildren.AllPlaced(ids, LoadChildren.LogKey(), e.logs.value(ids).value)
  }

  /** Without interceptors, the groups load exactly when the join query succeeds and its rows satisfy the
      filter. */
  lemma PlainGroupsOk(e: Edges, ids: seq<int>, made: seq<seq<Group>>, call: LoadGroups.Call)
    requires e.groups.Some? && e.groups.value(ids) == PlainQuery(call) && GroupsMade(e, ids, made)
    ensures GroupsOk(e, ids, made) <==> !call.failed && LoadGroups.InFilter(ids, call.rows)
  {
    OneCall(call, made);
    if !call.failed {
      LoadGroups.AttachableIffFiltered(ids, call.rows, made[0]);
    }
  }

  lemma OneCall(call: LoadGroups.Call, made: seq<seq<Group>>)
    requires LoadGroups.ResultsOf(LoadGroups.RowsOf([call]), made)
    requires LoadGroups.Materialised(LoadGroups.AllRows([call]), Concat(made))
    ensures |made| == 1 && LoadGroups.AllRows([call]) == call.rows && LoadGroups.Materialised(call.rows, made[0])
    ensures LoadGroups.Returned([call], made) == [if call.failed then None else Some(made[0])]
  {
    assert |LoadGroups.RowsOf([call])| == 1 && |made| == 1;
    hide LoadGroups.ResultsOf, LoadGroups.Materialised;
    ConcatOne(call.rows);
    ConcatOne(made[0]);
    hide Concat;
    assert LoadGroups.RowsOf([call]) == [call.rows] && made == [made[0]];
  }

  method LoadGroupsEdge(nodes: seq<Account>, e: Edges) returns (err: Option<QueryError>, ghost made: seq<seq<Group>>)
    requires Unfilled(nodes, e) && nodes != []
    modifies (set a | a in nodes)`groups
    ensures GroupsMade(e, Ids(nodes), made)
    ensures err.None? <==> GroupsOk(e, Ids(nodes), made)
    ensures err.None? ==> GroupsLoaded(nodes, e, made)
  {
    hide LoadGroups.ResultsOf, LoadGroups.Materialised, LoadGroups.AllAttachable, LoadGroups.Shared, Concat,
         LoadGroups.AllRows, LoadGroups.Returned;
    made, err := [], None;
    if e.groups.Some? {
      var q := e.groups.value(Ids(nodes));
      var failed: Option<LoadGroups.LoadError>;
      failed, made := LoadGroups.Load(nodes, q.calls, q.answer);
      if failed.Some? {
        err := Some(GroupsError(failed.value));
      }
    }
  }

  method LoadProxyEdge(nodes: seq<Account>, e: Edges) returns (err: Option<QueryError>)
    requires nodes != [] && forall i :: 0 <= i < |nodes| ==> nodes[i].proxy == None
    modifies (set a | a in nodes)`proxy
    ensures err.None? <==> ProxiesOk(e, LoadProxy.Keys(nodes))
    ensures err.None? ==> ProxiesLoaded(nodes, e)
  {
    hide LoadProxy.ProxyFor, LoadProxy.AllKnown, FirstKeys;
    err := None;
    if e.proxies.None? {
      NotAsked(nodes, e);
    } else {
      ghost var held := LoadProxy.Held(nodes);
      var failed := LoadProxy.Load(nodes, e.proxies.value);
      if failed.Some? {
        return Some(ProxyError(failed.value));
      }
      KeptSame(nodes, LoadProxy.Keys(nodes), held, Fetched(nodes, e).value);
    }
  }

  lemma NotAsked(nodes: seq<Account>, e: Edges)
    requires e.proxies.None? && forall i :: 0 <= i < |nodes| ==> nodes[i].proxy == None
    ensures ProxiesLoaded(nodes, e)
  {
  }

  method LoadLogsEdge(nodes: seq<Account>, e: Edges) returns (err: Option<QueryError>)
    requires nodes != [] && forall i :: 0 <= i < |nodes| ==> nodes[i].usageLogs == []
    modifies (set a | a in nodes)`usageLogs
    ensures err.None? <==> LogsOk(e, Ids(nodes))
    ensures err.None? ==> LogsLoaded(nodes, e)
  {
    err := None;
    if e.logs.Some? {
      var failed := LoadChildren.LoadUsageLogs(nodes, e.logs.value);
      if failed.Some? {
        err := Some(LogsError(failed.value));
      }
    }
  }

  /** The proxies, then the usage logs. */
  method LoadMore(nodes: seq<Account>, e: Edges) returns (err: Option<QueryError>)
    requires nodes != []
    requires forall i :: 0 <= i < |nodes| ==> nodes[i].proxy == None && nodes[i].usageLogs == []
    modifies (set a | a in nodes)`proxy, (set a | a in nodes)`usageLogs
    ensures err.None? <==> ProxiesOk(e, LoadProxy.Keys(nodes)) && LogsOk(e, Ids(nodes))
    ensures err.None? ==> ProxiesLoaded(nodes, e) && LogsLoaded(nodes, e)
  {
    hide ProxiesLoaded, LogsLoaded, ProxiesOk, LogsOk;
    err := LoadProxyEdge(nodes, e);
    if err.None? {
      err := LoadLogsEdge(nodes, e);
    }
  }

  ghost predicate EdgesOk(e: Edges, ids: seq<int>, keys: seq<Option<int>>, made: seq<seq<Group>>) {
    GroupsOk(e, ids, made) && ProxiesOk(e, keys) && LogsOk(e, ids)
  }

  /** The groups, then the other edges. */
  method LoadEdges(nodes: seq<Account>, e: Edges) returns (err: Option<QueryError>, ghost made: seq<seq<Group>>)
    requires Unfilled(nodes, e) && nodes != []
    modifies (set a | a in nodes)`groups, (set a | a in nodes)`proxy, (set a | a in nodes)`usageLogs
    ensures GroupsMade(e, Ids(nodes), made)
    ensures err.None? <==> EdgesOk(e, Ids(nodes), LoadProxy.Keys(nodes), made)
    ensures err.None? ==> GroupsLoaded(nodes, e, made) && ProxiesLoaded(nodes, e) && LogsLoaded(nodes, e)
  {
    hide GroupsLoaded, ProxiesLoaded, LogsLoaded, GroupsOk, ProxiesOk, LogsOk, GroupsMade;
    err, made := LoadGroupsEdge(nodes, e);
    if err.None? {
      err := LoadMore(nodes, e);
    }
  }

  /** The keys and the foreign keys that reading the rows yields. */
  function ReadIds(codec: Codec, columns: seq<Column>, rows: seq<Row>): seq<int> {
    seq(|rows|, i requires 0 <= i < |rows| => ReadRow(codec, columns, rows[i]).fields.ints.id)
  }

  function ReadKeys(codec: Codec, columns: seq<Column>, rows: seq<Row>): seq<Option<int>> {
    seq(|rows|, i requires 0 <= i < |rows| => ReadRow(codec, columns, rows[i]).fields.ints.proxyID)
  }

  lemma ReadAgrees(codec: Codec, columns: seq<Column>, rows: seq<Row>, nodes: seq<Account>)
    requires ReadFrom(codec, columns, rows, nodes)
    ensures Ids(nodes) == ReadIds(codec, columns, rows)
    ensures LoadProxy.Keys(nodes) == ReadKeys(codec, columns, rows)
  {
  }

  predicate Readable(codec: Codec, columns: seq<Column>, rows: seq<Row>) {
    forall i :: 0 <= i < |rows| ==> ReadRow(codec, columns, rows[i]).error.None?
  }

  /** Every edge has what it was asked to have. */
  ghost predicate EdgesLoaded(nodes: seq<Account>, e: Edges, made: seq<seq<Group>>)
    reads nodes
  {
    && GroupsLoaded(nodes, e, made) && ProxiesLoaded(nodes, e) && LogsLoaded(nodes, e)
    && forall i :: 0 <= i < |nodes| ==> nodes[i].loaded == LoadedOf(e)
  }

  /** Without nodes there is nothing to load and no query is issued. */
  method FillNodes(nodes: seq<Account>, e: Edges) returns (err: Option<QueryError>, ghost made: seq<seq<Group>>)
    requires Unfilled(nodes, e)
    modifies (set a | a in nodes)`groups, (set a | a in nodes)`proxy, (set a | a in nodes)`usageLogs
    ensures nodes != [] ==> GroupsMade(e, Ids(nodes), made)
    ensures err.None? <==> (nodes != [] ==> EdgesOk(e, Ids(nodes), LoadProxy.Keys(nodes), made))
    ensures err.None? ==> EdgesLoaded(nodes, e, made)
  {
    err, made := None, [];
    if nodes != [] {
      err, made := LoadEdges(nodes, e);
    }
  }

  /** When a query for the given columns succeeds. */
  ghost predicate QueryOk(codec: Codec, columns: seq<Column>, rows: seq<Row>, e: Edges, made: seq<seq<Group>>) {
    && Readable(codec, columns, rows)
    && (rows != [] ==> EdgesOk(e, ReadIds(codec, columns, rows), ReadKeys(codec, columns, rows), made))
  }

  /** If the groups were asked for at all, they were made from the rows of the group query. */
  ghost predicate QueryMade(codec: Codec, columns: seq<Column>, rows: seq<Row>, e: Edges, made: seq<seq<Group>>) {
    Readable(codec, columns, rows) && rows != [] ==> GroupsMade(e, ReadIds(codec, columns, rows), made)
  }

  method RunQuery(codec: Codec, columns: seq<Column>, rows: seq<Row>, e: Edges)
    returns (err: Option<QueryError>, nodes: seq<Account>, ghost made: seq<seq<Group>>)
    ensures fresh(set a | a in nodes)
    ensures QueryMade(codec, columns, rows, e, made)
    ensures err.None? <==> QueryOk(codec, columns, rows, e, made)
    ensures err.None? ==> ReadFrom(codec, columns, rows, nodes) && EdgesLoaded(nodes, e, made)
  {
    hide GroupsLoaded, ProxiesLoaded, LogsLoaded, GroupsOk, ProxiesOk, LogsOk, GroupsMade, ReadRow;
    made := [];
    err, nodes := MakeNodes(codec, columns, rows, e);
    if err.None? {
      ReadAgrees(codec, columns, rows, nodes);
      err, made := FillNodes(nodes, e);
    }
  }

  /** Every node shows what its row stores. */
  ghost predicate ShowsRows(codec: Codec, fields: seq<Column>, rows: seq<Row>, nodes: seq<Account>)
    reads (set a | a in nodes)`fields
  {
    |nodes| == |rows| && forall i :: 0 <= i < |rows| && RowOk(codec, rows[i]) ==>
      ShowsRow(codec, fields, rows[i], nodes[i].fields)
  }

  lemma NodesShow(codec: Codec, fields: seq<Column>, withProxy: bool, rows: seq<Row>, nodes: seq<Account>)
    requires ReadFrom(codec, QueryColumns(fields, withProxy), rows, nodes)
    ensures ShowsRows(codec, fields, rows, nodes)
  {
    hide QueryColumns, ReadRow, ShowsRow;
    forall i | 0 <= i < |rows| && RowOk(codec, rows[i])
      ensures ShowsRow(codec, fields, rows[i], nodes[i].fields)
    {
      ReadShows(codec, fields, withProxy, rows[i]);
    }
  }

  /** The whole query: it succeeds exactly when the node query does, every row can be read and every
      requested edge loads, and then yields one node per row, read from the selected columns, with those
      edges. `rows` is the answer of the node query; `None` is its failure. */
  method SqlAll(codec: Codec, fields: seq<Column>, rows: Option<seq<Row>>, e: Edges)
    returns (err: Option<QueryError>, nodes: seq<Account>, ghost made: seq<seq<Group>>)
    ensures fresh(set a | a in nodes)
    ensures rows.Some? ==> QueryMade(codec, QueryColumns(fields, e.proxies.Some?), rows.value, e, made)
    ensures err.None? <==>
            rows.Some? && QueryOk(codec, QueryColumns(fields, e.proxies.Some?), rows.value, e, made)
    ensures err.None? ==>
              ReadFrom(codec, QueryColumns(fields, e.proxies.Some?), rows.value, nodes) && EdgesLoaded(nodes, e, made)
    ensures err.None? ==> ShowsRows(codec, fields, rows.value, nodes)
    ensures err.Some? ==> nodes == []
  {
    hide QueryMade, QueryOk, QueryColumns;
    var columns := CompileColumns(fields, e.proxies.Some?);
    if rows.None? {
      made := [];
      return Some(NodesFailed), [], made;
    }
    err, nodes, made := RunQuery(codec, columns, rows.value, e);
    if err.Some? {
      nodes := [];
    } else {
      NodesShow(codec, fields, e.proxies.Some?, rows.value, nodes);
    }
  }

  // ---------------------------------------------------------------------------
  // What a caller sees
  // ---------------------------------------------------------------------------

  /** The proxy of one account looked up on its own. */
  function NaiveProxy(table: seq<Proxy>, wanted: bool, key: Option<int>): EdgeResult<Proxy> {
    if !wanted then NotLoaded
    else if key.None? then NotFound
    else match LoadProxy.LastWith(table, key.value)
      case None => NotFound
      case Some(p) => Found(p)
  }

  function IdIn(ids: seq<int>): Proxy -> bool {
    (p: Proxy) => p.id in ids
  }

  lemma LastSnoc(front: seq<Proxy>, p: Proxy, k: int)
    ensures LoadProxy.LastWith(front + [p], k) == if p.id == k then Some(p) else LoadProxy.LastWith(front, k)
  {
    assert (front + [p])[..|front|] == front;
  }

  lemma {:induction false} FilteredLast(table: seq<Proxy>, ids: seq<int>, k: int)
    requires k in ids
    ensures LoadProxy.LastWith(Filter(IdIn(ids), table), k) == LoadProxy.LastWith(table, k)
    decreases |table|
  {
    if table != [] {
      var n := |table| - 1;
      var front, p := table[..n], table[n];
      assert front + [p] == table;
      FilteredLast(front, ids, k);
      FilterSnoc(IdIn(ids), front, p);
      LastSnoc(front, p, k);
      LastSnoc(Filter(IdIn(ids), front), p, k);
      hide LoadProxy.LastWith, Filter;
      assert Filter(IdIn(ids), front) + [] == Filter(IdIn(ids), front);
    }
  }

  /** The proxy query answers from a table. */
  ghost predicate AnswersFrom(e: Edges, table: seq<Proxy>) {
    e.proxies.Some? ==> forall ids :: e.proxies.value(ids) == Some(Filter(IdIn(ids), table))
  }

  /** After a query whose proxy query answers from a table, each node's `ProxyOrErr` says found,
      not-found or not-loaded exactly as a lookup of its own key in the whole table would. */
  lemma ProxyAnswer(nodes: seq<Account>, e: Edges, table: seq<Proxy>, i: nat)
    requires i < |nodes| && ProxiesLoaded(nodes, e) && nodes[i].loaded == LoadedOf(e)
    requires AnswersFrom(e, table)
    ensures nodes[i].ProxyOrErr() == NaiveProxy(table, e.proxies.Some?, nodes[i].ProxyKey())
  {
    var keys := LoadProxy.Keys(nodes);
    var ks := FirstKeys(keys);
    if e.proxies.Some? && keys[i].Some? {
      KeyListed(keys, i);
      FilteredLast(table, ks, keys[i].value);
    }
  }

  /** Projection does not change the eager-loaded proxies: two queries over the same rows, for any two
      lists of requested fields (no fields: all columns), give node by node the same answer. */
  lemma ProjectionKeepsProxies(codec: Codec, f: seq<Column>, g: seq<Column>, rows: seq<Row>, e: Edges,
                               table: seq<Proxy>, a: seq<Account>, b: seq<Account>, i: nat)
    requires e.proxies.Some? && AnswersFrom(e, table)
    requires forall k :: 0 <= k < |rows| ==> RowOk(codec, rows[k])
    requires ReadFrom(codec, QueryColumns(f, true), rows, a) && ReadFrom(codec, QueryColumns(g, true), rows, b)
    requires ProxiesLoaded(a, e) && ProxiesLoaded(b, e) && i < |rows|
    requires a[i].loaded == LoadedOf(e) && b[i].loaded == LoadedOf(e)
    ensures a[i].ProxyOrErr() == b[i].ProxyOrErr()
  {
    hide QueryColumns;
    ProjectionKeepsKeys(codec, f, g, rows[i]);
    ProxyAnswer(a, e, table, i);
    ProxyAnswer(b, e, table, i);
  }

  /** After a query with distinct keys and no interceptors, each node's `GroupsOrErr` is not-loaded if groups
      were not asked for, and else exactly the groups the join links to it, each once, in first-occurrence
      order. */
  lemma GroupsAnswer(nodes: seq<Account>, e: Edges, made: seq<seq<Group>>, rows: seq<JoinRow>, i: nat)
    requires i < |nodes| && nodes[i].loaded == LoadedOf(e) && Distinct(Ids(nodes))
    requires GroupsMade(e, Ids(nodes), made) && GroupsLoaded(nodes, e, made)
    requires e.groups.Some? ==> e.groups.value(Ids(nodes)) == PlainQuery(LoadGroups.Call(rows, false))
    ensures e.groups.None? ==> nodes[i].GroupsOrErr() == NotLoaded
    ensures e.groups.Some? ==>
              && nodes[i].GroupsOrErr().Found?
              && Map(LoadGroups.GroupId(), nodes[i].GroupsOrErr().value) == Batched(rows, nodes[i].Id())
  {
    if e.groups.Some? {
      OneCall(LoadGroups.Call(rows, false), made);
      LoadGroups.ShareIsJoin(nodes, Ids(nodes), rows, made[0], i);
    }
  }

  /** Likewise for the usage logs: the in-order filter of all logs fetched by the node's key. */
  lemma LogsAnswer(nodes: seq<Account>, e: Edges, i: nat)
    requires i < |nodes| && LogsLoaded(nodes, e) && nodes[i].loaded == LoadedOf(e) && Distinct(Ids(nodes))
    ensures e.logs.None? ==> nodes[i].UsageLogsOrErr() == NotLoaded
    ensures e.logs.Some? ==>
              && e.logs.value(Ids(nodes)).Some?
              && nodes[i].UsageLogsOrErr() ==
                 Found(Filter(KeyIs(LoadChildren.LogKey(), nodes[i].Id()), e.logs.value(Ids(nodes)).value))
  {
    if e.logs.Some? {
      NodeIndex.DistinctOwns(nodes, Ids(nodes), i);
    }
  }
}
