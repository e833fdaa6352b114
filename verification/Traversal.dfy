/**
 Chained traversals (`QueryAccountGroups`/`QueryAccount` and `prepareQuery` of
 backend/ent/account_query.go and backend/ent/accountgroup_query.go): each query of a chain holds a
 path closure over the previous one, so preparing the last prepares them all, however long the chain.
 */
module Traversal {
  import opened Text
  import opened Seqs

  /** An interceptor: nil, one that does not traverse, or one that rewrites the field list or fails. */
  datatype Interceptor = Nil | Plain | Traverser(run: seq<string> -> Option<seq<string>>)

  /** What is fixed about a query of the chain: its interceptors, its valid columns, and whether the
      selector it compiles to carries an error. */
  datatype Stage = Stage(inters: seq<Interceptor>, valid: string -> bool, selectorFails: bool)

  /** The selection a query compiles to: its fields, over the selection its path produced. */
  datatype Selection = From(fields: seq<string>, over: Option<Selection>)

  datatype Error = UninitializedInterceptor | TraverseFailed | InvalidField(name: string) | SelectorFailed

  /** The field list as the interceptors leave it, and the error that stopped them. */
  datatype Traversed = Traversed(fields: seq<string>, error: Option<Error>)

  function Traverse(inters: seq<Interceptor>, fields: seq<string>): Traversed
    decreases |inters|
  {
    if inters == [] then Traversed(fields, None)
    else match inters[0]
      case Nil => Traversed(fields, Some(UninitializedInterceptor))
      case Plain => Traverse(inters[1..], fields)
      case Traverser(run) =>
        match run(fields)
        case None => Traversed(fields, Some(TraverseFailed))
        case Some(next) => Traverse(inters[1..], next)
  }

  function FirstInvalid(valid: string -> bool, fields: seq<string>): Option<Error> {
    if fields == [] then None
    else if !valid(fields[0]) then Some(InvalidField(fields[0]))
    else FirstInvalid(valid, fields[1..])
  }

  /** What a query's own part of `prepareQuery` finds. */
  function OwnError(s: Stage, fields: seq<string>): Option<Error> {
    var t := Traverse(s.inters, fields);
    if t.error.Some? then t.error else FirstInvalid(s.valid, t.fields)
  }

  class Query {
    const stage: Stage
    var fields: seq<string>
    var sql: Option<Selection>

    constructor (stage: Stage, fields: seq<string>)
      ensures this.stage == stage && this.fields == fields && sql == None
    {
      this.stage, this.fields, sql := stage, fields, None;
    }

    function Selected(): Selection
      reads this
    {
      From(fields, sql)
    }

    /** The rest of the path closure and `_q.sql = prev`, once the previous query is prepared. */
    method Follow(prev: Query) returns (err: Option<Error>)
      modifies this`sql
      ensures err == if prev.stage.selectorFails then Some(SelectorFailed) else None
      ensures sql == if err.None? then Some(From(prev.fields, old(prev.sql))) else old(sql)
    {
      if prev.stage.selectorFails {
        return Some(SelectorFailed);
      }
      sql := Some(prev.Selected());
      err := None;
    }

    /** The two loops of `prepareQuery` over the query's own interceptors and fields. */
    method PrepareOwn() returns (err: Option<Error>)
      modifies this`fields
      ensures err == OwnError(stage, old(fields))
      ensures fields == Traverse(stage.inters, old(fields)).fields
    {
      assert stage.inters[0..] == stage.inters;
      for i := 0 to |stage.inters|
        invariant Traverse(stage.inters[i..], fields) == Traverse(stage.inters, old(fields))
      {
        assert stage.inters[i..][1..] == stage.inters[i + 1..];
        match stage.inters[i] {
          case Nil =>
            return Some(UninitializedInterceptor);
          case Plain =>
          case Traverser(run) =>
            var next := run(fields);
            if next.None? {
              return Some(TraverseFailed);
            }
            fields := next.value;
        }
      }
      assert stage.inters[|stage.inters|..] == [];
      assert fields[0..] == fields;
      for i := 0 to |fields|
        invariant FirstInvalid(stage.valid, fields[i..]) == FirstInvalid(stage.valid, fields)
      {
        assert fields[i..][1..] == fields[i + 1..];
        if !stage.valid(fields[i]) {
          return Some(InvalidField(fields[i]));
        }
      }
      assert fields[|fields|..] == [];
      err := None;
    }
  }

  // ---------------------------------------------------------------------------
  // Chains
  // ---------------------------------------------------------------------------

  /** A query of the chain before it is prepared. */
  datatype Link = Link(stage: Stage, fields: seq<string>)

  predicate OwnOk(chain: seq<Link>, j: nat)
    requires j < |chain|
  {
    OwnError(chain[j].stage, chain[j].fields).None?
  }

  function FinalFields(chain: seq<Link>, j: nat): seq<string>
    requires j < |chain|
  {
    Traverse(chain[j].stage.inters, chain[j].fields).fields
  }

  /** The selection of query `j` once the queries before it are prepared. */
  function SelectionAt(chain: seq<Link>, j: nat): Selection
    requires j < |chain|
  {
    From(FinalFields(chain, j), if j == 0 then None else Some(SelectionAt(chain, j - 1)))
  }

  /** What preparing query `i` returns: the error of the last query up to `i` whose own part fails;
      else the first selector before `i` that carries an error; else nothing. */
  function Outcome(chain: seq<Link>, i: nat): Option<Error>
    requires i < |chain|
  {
    if !OwnOk(chain, i) then OwnError(chain[i].stage, chain[i].fields)
    else if i == 0 then None
    else
      var before := Outcome(chain, i - 1);
      if before.Some? then before
      else if chain[i - 1].stage.selectorFails then Some(SelectorFailed)
      else None
  }

  lemma OutcomeStep(chain: seq<Link>, i: nat)
    requires i < |chain|
    ensures Outcome(chain, i) ==
            if !OwnOk(chain, i) then OwnError(chain[i].stage, chain[i].fields)
            else if i == 0 then None
            else if Outcome(chain, i - 1).Some? then Outcome(chain, i - 1)
            else if chain[i - 1].stage.selectorFails then Some(SelectorFailed)
            else None
  {
  }

  lemma SelectionStep(chain: seq<Link>, j: nat)
    requires j < |chain|
    ensures SelectionAt(chain, j) ==
            From(FinalFields(chain, j), if j == 0 then None else Some(SelectionAt(chain, j - 1)))
  {
  }

  /** Preparing a chain of any length succeeds exactly when every query's own part does and no selector
      before the last carries an error. */
  lemma {:induction false} PrepareSucceedsIff(chain: seq<Link>, i: nat)
    requires i < |chain|
    ensures Outcome(chain, i).None? <==>
            && (forall j :: 0 <= j <= i ==> OwnOk(chain, j))
            && forall j :: 0 <= j < i ==> !chain[j].stage.selectorFails
  {
    if OwnOk(chain, i) && i > 0 {
      PrepareSucceedsIff(chain, i - 1);
    }
  }

  /** When some query's own part fails, the error reported is that of the last such query: the one
      nearest to the caller. */
  lemma {:induction false} LastOwnErrorWins(chain: seq<Link>, i: nat, j: nat)
    requires j <= i < |chain| && !OwnOk(chain, j)
    requires forall k :: j < k <= i ==> OwnOk(chain, k)
    ensures Outcome(chain, i) == OwnError(chain[j].stage, chain[j].fields)
  {
    if j < i {
      LastOwnErrorWins(chain, i - 1, j);
    }
  }

  /** Interceptors that leave the field list alone. */
  ghost predicate Hands(inters: seq<Interceptor>) {
    forall k :: 0 <= k < |inters| && inters[k].Traverser? ==>
      forall fields :: inters[k].run(fields).Some? ==> inters[k].run(fields) == Some(fields)
  }

  /** For those, a query's own part succeeds exactly when no interceptor is nil, all of them traverse
      without error, and every field is a valid column. */
  lemma {:induction false} OwnOkIff(s: Stage, fields: seq<string>)
    requires Hands(s.inters)
    ensures OwnError(s, fields).None? <==>
            && (forall k :: 0 <= k < |s.inters| ==>
                  !s.inters[k].Nil? && (s.inters[k].Traverser? ==> s.inters[k].run(fields).Some?))
            && forall k :: 0 <= k < |fields| ==> s.valid(fields[k])
  {
    TraverseIff(s.inters, fields);
    FieldsValidIff(s.valid, fields);
  }

  lemma {:induction false} TraverseIff(inters: seq<Interceptor>, fields: seq<string>)
    requires Hands(inters)
    ensures Traverse(inters, fields).fields == fields
    ensures Traverse(inters, fields).error.None? <==>
            forall k :: 0 <= k < |inters| ==>
              !inters[k].Nil? && (inters[k].Traverser? ==> inters[k].run(fields).Some?)
    decreases |inters|
  {
    if inters != [] {
      assert forall k :: 0 < k < |inters| ==> inters[k] == inters[1..][k - 1];
      TraverseIff(inters[1..], fields);
    }
  }

  /** One interceptor lets the field list pass, as it is or rewritten. */
  predicate Passes(inter: Interceptor, before: seq<string>, after: seq<string>) {
    match inter
    case Nil => false
    case Plain => after == before
    case Traverser(run) => run(before) == Some(after)
  }

  /** For any interceptors, rewriting ones included: there is a list of field lists, from the query's own to the one
      left in the end, such that each interceptor passed one on as the next; and if there is an error, it is that
      of the first interceptor that passes nothing on - nil, or failing on the fields it was given. */
  lemma {:induction false} TraverseRuns(inters: seq<Interceptor>, fields: seq<string>) returns (lists: seq<seq<string>>)
    ensures 1 <= |lists| <= |inters| + 1
    ensures lists[0] == fields && lists[|lists| - 1] == Traverse(inters, fields).fields
    ensures forall k :: 0 <= k < |lists| - 1 ==> Passes(inters[k], lists[k], lists[k + 1])
    ensures Traverse(inters, fields).error.None? <==> |lists| == |inters| + 1
    ensures Traverse(inters, fields).error.Some? ==>
              match inters[|lists| - 1]
              case Nil => Traverse(inters, fields).error == Some(UninitializedInterceptor)
              case Plain => false
              case Traverser(run) =>
                run(lists[|lists| - 1]).None? && Traverse(inters, fields).error == Some(TraverseFailed)
    decreases |inters|
  {
    if inters == [] {
      lists := [fields];
    } else {
      var next := match inters[0] case Nil => None case Plain => Some(fields) case Traverser(run) => run(fields);
      if next.None? {
        lists := [fields];
      } else {
        var rest := TraverseRuns(inters[1..], next.value);
        lists := [fields] + rest;
        assert forall k :: 0 < k < |inters| ==> inters[k] == inters[1..][k - 1];
        assert forall k :: 0 < k < |lists| ==> lists[k] == rest[k - 1];
      }
    }
  }

  /** The field reported is the first that is no column. */
  lemma {:induction false} FirstInvalidIs(valid: string -> bool, fields: seq<string>, k: nat)
    requires k < |fields| && !valid(fields[k]) && forall j :: 0 <= j < k ==> valid(fields[j])
    ensures FirstInvalid(valid, fields) == Some(InvalidField(fields[k]))
    decreases |fields|
  {
    if k > 0 {
      FirstInvalidIs(valid, fields[1..], k - 1);
    }
  }

  lemma {:induction false} FieldsValidIff(valid: string -> bool, fields: seq<string>)
    ensures FirstInvalid(valid, fields).None? <==> forall k :: 0 <= k < |fields| ==> valid(fields[k])
    decreases |fields|
  {
    if fields != [] {
      assert forall k :: 0 < k < |fields| ==> fields[k] == fields[1..][k - 1];
      FieldsValidIff(valid, fields[1..]);
    }
  }

  // ---------------------------------------------------------------------------
  // prepareQuery through the path closures
  // ---------------------------------------------------------------------------

  /** A query that has not been prepared. */
  ghost predicate Unprepared(link: Link, q: Query)
    reads q
  {
    q.stage == link.stage && q.fields == link.fields && q.sql == None
  }

  /** Query `j` holds the selection its path produced (the first query has no path). */
  ghost predicate Chained(chain: seq<Link>, j: nat, q: Query)
    requires j < |chain|
    reads q
  {
    q.fields == FinalFields(chain, j) && q.sql == if j == 0 then None else Some(SelectionAt(chain, j - 1))
  }

  /** `_q.prepareQuery(ctx)` of query `i`, whose path closure prepares query `i - 1`. On success every
      query up to `i` holds the selection over the one before it; if some query's own part fails, no
      query has received a selection; queries beyond `i` are not touched. */
  method Prepare(chain: seq<Link>, queries: seq<Query>, i: nat) returns (err: Option<Error>)
    requires i < |queries| == |chain| && Distinct(queries)
    requires forall j :: 0 <= j <= i ==> Unprepared(chain[j], queries[j])
    modifies queries
    ensures err == Outcome(chain, i)
    ensures err.None? ==> forall j :: 0 <= j <= i ==> Chained(chain, j, queries[j])
    ensures (exists j :: 0 <= j <= i && !OwnOk(chain, j)) ==> forall j :: 0 <= j <= i ==> queries[j].sql == None
    ensures forall j :: i < j < |queries| ==>
              queries[j].fields == old(queries[j].fields) && queries[j].sql == old(queries[j].sql)
    decreases i
  {
    hide Outcome, OwnError, Traverse, SelectionAt;
    OutcomeStep(chain, i);
    var q := queries[i];
    assert Unprepared(chain[i], q);
    err := q.PrepareOwn();
    if err.Some? {
      return;
    }
    if i > 0 {
      err := Prepare(chain, queries, i - 1);
      if err.Some? {
        return;
      }
      assert Chained(chain, i - 1, queries[i - 1]);
      err := q.Follow(queries[i - 1]);
      SelectionStep(chain, i - 1);
      PrepareSucceedsIff(chain, i - 1);
    }
  }
}
