/**
 Account nodes as the query builder makes them (backend/ent/account.go): the entity's fields, its
 edges, and the record of which edges were asked for.
 */
module AccountNodes {
  import opened Text
  import opened AccountEntity
  import opened JoinRows
  import NodeIndex

  /** A group, made from the row it was first seen in. */
  class Group {
    const id: int
    const payload: string

    constructor (row: JoinRow)
      ensures id == row.inId && payload == row.payload
    {
      id, payload := row.inId, row.payload;
    }
  }

  datatype Proxy = Proxy(id: int, payload: string)

  datatype UsageLog = UsageLog(id: int, accountId: int, payload: string)

  /** `loadedTypes`, for the three edges modelled. */
  datatype Loaded = Loaded(groups: bool, proxy: bool, usageLogs: bool)

  datatype EdgeResult<T> = Found(value: T) | NotFound | NotLoaded

  class Account {
    var fields: Fields
    var groups: seq<Group>
    var proxy: Option<Proxy>
    var usageLogs: seq<UsageLog>
    const loaded: Loaded

    constructor (loaded: Loaded)
      ensures this.loaded == loaded && fields == ZERO && groups == [] && proxy == None && usageLogs == []
    {
      this.loaded := loaded;
      fields, groups, proxy, usageLogs := ZERO, [], None, [];
    }

    function Id(): int
      reads this`fields
    {
      fields.ints.id
    }

    function ProxyKey(): Option<int>
      reads this`fields
    {
      fields.ints.proxyID
    }

    function GroupsOrErr(): EdgeResult<seq<Group>>
      reads this`groups
    {
      if loaded.groups then Found(groups) else NotLoaded
    }

    function ProxyOrErr(): EdgeResult<Proxy>
      reads this`proxy
    {
      if proxy.Some? then Found(proxy.value) else if loaded.proxy then NotFound else NotLoaded
    }

    function UsageLogsOrErr(): EdgeResult<seq<UsageLog>>
      reads this`usageLogs
    {
      if loaded.usageLogs then Found(usageLogs) else NotLoaded
    }

    /** The loop of `assignValues`; on an error the columns before it stay assigned. */
    method AssignValues(codec: Codec, columns: seq<Column>, values: seq<Holder>) returns (err: Option<ScanError>)
      modifies this`fields
      ensures Assigned(fields, err) == Assign(codec, old(fields), columns, values)
    {
      if |values| < |columns| {
        return Some(TooFewValues);
      }
      assert columns[0..] == columns && values[0..] == values;
      for i := 0 to |columns|
        invariant AssignFrom(codec, fields, columns[i..], values[i..]) ==
                  AssignFrom(codec, old(fields), columns, values)
      {
        assert columns[i..][1..] == columns[i + 1..] && values[i..][1..] == values[i + 1..];
        assert columns[i..][0] == columns[i] && values[i..][0] == values[i];
        var r := AssignColumn(codec, fields, columns[i], values[i]);
        fields := r.fields;
        if r.error.Some? {
          return r.error;
        }
      }
      err := None;
    }
  }

  /** The keys of the nodes. */
  function Ids(nodes: seq<Account>): (ids: seq<int>)
    reads (set a | a in nodes)`fields
    ensures |ids| == |nodes|
    ensures forall i :: 0 <= i < |nodes| ==> ids[i] == nodes[i].Id()
  {
    if nodes == [] then [] else Ids(nodes[..|nodes| - 1]) + [nodes[|nodes| - 1].Id()]
  }

  /** The keys of nodes are keys of the objects. */
  lemma IdsKeyed(nodes: seq<Account>)
    ensures NodeIndex.Keyed(nodes, Ids(nodes))
  {
  }
}
