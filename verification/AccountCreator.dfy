/**
 Creating one account as it runs (`AccountCreate.Save`, `defaults`, `check`, `createSpec` and `sqlSave`
 of backend/ent/account_create.go): a builder whose mutation is written step by step. Each method is
 tied to the function of module `AccountCreate` or `AccountBulk` it implements.
 */
module AccountCreator {
  import opened Text
  import opened AccountEntity
  import opened AccountCreate
  import opened AccountBulk
  import Chain = BulkChain
  import Straight = BulkStraight

  lemma {:induction false} SpecFieldsSnoc(m: Mutation, columns: seq<Column>, c: Column)
    ensures SpecFields(m, columns + [c]) == SpecFields(m, columns) + (if c in m.fields then [(c, m.fields[c])] else [])
    decreases |columns|
  {
    if columns == [] {
      assert columns + [c] == [c] && [c][1..] == [];
    } else {
      assert (columns + [c])[1..] == columns[1..] + [c];
      SpecFieldsSnoc(m, columns[1..], c);
    }
  }

  lemma CarriesOwn(order: Order, m: Mutation, conflict: seq<string>, c: Column)
    requires WellTyped(m) && Settable(c)
    ensures FieldValue(SpecOf(order, m, conflict).fields, c) == (if c in m.fields then Some(m.fields[c]) else None)
    ensures Get(NodeOf(order, m), c) == if c in m.fields then Some(m.fields[c]) else Get(ZERO, c)
  {
    SpecCarries(order, m, conflict, 0, c);
    PutGet(NodeOf(order, m), ID, VInt(0), c);
  }

  class Creator {
    var mutation: Data
    var done: bool
    const hooks: seq<Chain.Hook<Data>>
    const conflict: seq<string>

    constructor (b: AccountBuilder)
      ensures mutation == b.data && hooks == b.hooks && conflict == b.conflict && !done
    {
      mutation, done, hooks, conflict := b.data, false, b.hooks, b.conflict;
    }

    /** `defaults`: writes the columns that were not set, and stops at a default function that is nil. */
    method SetDefaults(cfg: Config) returns (failed: bool)
      modifies this`mutation
      ensures Defaulted(mutation, failed) == Defaults(cfg, old(mutation))
    {
      var steps := DefaultSteps(cfg);
      DefaultStepsTyped(cfg);
      assert steps[0..] == steps;
      hide DefaultSteps, WellTyped;
      for i := 0 to |steps|
        invariant ApplyDefaults(mutation, steps[i..]) == ApplyDefaults(old(mutation), steps)
      {
        assert steps[i..][1..] == steps[i + 1..];
        var (c, v) := steps[i];
        if c !in mutation.fields {
          if v.None? {
            return true;
          }
          DefaultTyped(mutation, c, v.value);
          mutation := mutation.(fields := mutation.fields[c := v.value]);
        }
      }
      failed := false;
    }

    /** `check`: the column of the first rule that is violated. */
    method RunChecks(valid: Validator) returns (bad: Option<Column>)
      ensures bad == Check(valid, mutation)
    {
      var rules := CHECK_RULES;
      assert rules[0..] == rules;
      hide CHECK_RULES;
      for i := 0 to |rules|
        invariant FirstViolation(valid, mutation, rules[i..]) == FirstViolation(valid, mutation, rules)
      {
        assert rules[i..][1..] == rules[i + 1..];
        if !Satisfies(valid, mutation, rules[i]) {
          return Some(rules[i].column);
        }
      }
      bad := None;
    }

    /** `createSpec`: the node and the specification, column by column, then the edges. */
    method CreateSpec(order: Order) returns (node: Fields, spec: Spec)
      ensures node == NodeOf(order, mutation)
      ensures spec == SpecOf(order, mutation, conflict)
      ensures forall c :: Settable(c) ==>
                && FieldValue(spec.fields, c) == (if c in mutation.fields then Some(mutation.fields[c]) else None)
                && Get(node, c) == if c in mutation.fields then Some(mutation.fields[c]) else Get(ZERO, c)
    {
      var m := mutation;
      node := ZERO;
      var fields: seq<(Column, Val)> := [];
      assert order[0..] == order;
      for i := 0 to |order|
        invariant fields == SpecFields(m, order[..i])
        invariant NodeFields(node, m, order[i..]) == NodeFields(ZERO, m, order)
      {
        assert order[i..][1..] == order[i + 1..];
        assert order[..i + 1] == order[..i] + [order[i]];
        SpecFieldsSnoc(m, order[..i], order[i]);
        hide Put, SpecFields;
        if order[i] in m.fields {
          fields := fields + [(order[i], m.fields[order[i]])];
          node := Put(node, order[i], m.fields[order[i]]);
        }
      }
      assert order[..|order|] == order;
      var edges: seq<EdgeSpec> := [];
      if m.groups != [] {
        edges := edges + [EdgeSpec(M2M, m.groups)];
      }
      if m.proxy.Some? {
        node := Put(node, ProxyID, VInt(m.proxy.value));
        edges := edges + [EdgeSpec(M2O, [m.proxy.value])];
      }
      if m.usageLogs != [] {
        edges := edges + [EdgeSpec(O2M, m.usageLogs)];
      }
      assert edges == SpecEdges(m);
      spec := Spec(fields, edges, conflict);
      forall c | Settable(c)
        ensures FieldValue(spec.fields, c) == (if c in m.fields then Some(m.fields[c]) else None)
        ensures Get(node, c) == if c in m.fields then Some(m.fields[c]) else Get(ZERO, c)
      {
        CarriesOwn(order, m, conflict, c);
      }
    }

    /** `sqlSave`; `insert` is the database's answer to one `sqlgraph.CreateNode`: a key, or nothing. */
    method SqlSave(s: Setting, insert: Spec -> Option<int>) returns (node: Option<Fields>)
      modifies this`done
      ensures node == if Check(s.valid, mutation).Some? then None
                      else Filled(NodeOf(s.order, mutation), insert(SpecOf(s.order, mutation, conflict)))
      ensures done == (old(done) || node.Some?)
    {
      var bad := RunChecks(s.valid);
      if bad.Some? {
        return None;
      }
      var built, spec := CreateSpec(s.order);
      var key := insert(spec);
      if key.None? {
        return None;
      }
      node := Some(WithId(built, key.value));
      done := true;
    }

    /** `Save`, for hooks that call `next` once and return what they got: each hook's edit reaches the
        builder's mutation before `sqlSave` runs. A failed default, a failed check and a refused insert
        all leave the mutation not done and return no node. */
    method Save(s: Setting, insert: Spec -> Option<int>) returns (node: Option<Fields>)
      modifies this
      ensures node == SingleNode(s, AccountBuilder(old(mutation), hooks, conflict), insert)
      ensures done == (old(done) || node.Some?)
    {
      ghost var b := AccountBuilder(mutation, hooks, conflict);
      var failed := SetDefaults(s.cfg);
      if failed {
        return None;
      }
      ghost var start := mutation;
      assert start == Prepared(s, b.data);
      var m := mutation;
      assert hooks[0..] == hooks;
      hide Prepared;
      for h := 0 to |hooks|
        invariant Straight.FinalData(hooks[h..], m) == Straight.FinalData(hooks, start)
        invariant done == old(done)
      {
        assert hooks[h..][1..] == hooks[h + 1..];
        m := hooks[h].edit([], m);
      }
      mutation := m;
      SingleIsFinal(s, conflict, hooks, start);
      node := SqlSave(s, insert);
    }
  }

  function Filled(node: Fields, key: Option<int>): Option<Fields> {
    if key.None? then None else Some(WithId(node, key.value))
  }

  /** The data a builder's hooks hand to `sqlSave`. */
  function Handed(s: Setting, b: AccountBuilder): Data {
    Straight.FinalData(b.hooks, Prepared(s, b.data))
  }

  /** What creating one account returns: nothing if it is rejected or the insert is refused. */
  function SingleNode(s: Setting, b: AccountBuilder, insert: Spec -> Option<int>): Option<Fields> {
    match SingleCreate(s, b)
    case Rejected => None
    case Inserts(spec) => Filled(NodeOf(s.order, Handed(s, b)), insert(spec))
  }

  /** A successful bulk create returns, for every builder that received a key, the very node that creating
      that account alone returns when its insert receives the same key - unless that single create would be
      rejected, which happens to no builder if the two ask the same of the validators. */
  lemma BulkNodesAreSingles(s: Setting, b: Bulk, i: nat, insert: Spec -> Option<int>)
    requires Straight.AllStraight(EnvOf(s, b)) && i < |b.builders| && Chain.Save(EnvOf(s, b)).out.Ok?
    requires s.batch(0, Straight.FullSpecs(EnvOf(s, b))).Inserted?
    requires var key := s.batch(0, Straight.FullSpecs(EnvOf(s, b))).keys(i);
             key.Some? && forall spec :: insert(spec) == key
    ensures Chain.Save(EnvOf(s, b)).st.nodes[i] == SingleNode(s, b.builders[i], insert) <==>
            SingleCreate(s, b.builders[i]).Inserts?
    ensures SameDemands(s, b) ==> SingleCreate(s, b.builders[i]).Inserts?
  {
    var env := EnvOf(s, b);
    Straight.AllOrNothing(env);
    Straight.SpecsAndNodes(env);
    IssuedMeets(s, b);
    BulkRefinesSingles(s, b);
    InsertsMeets(s, b.builders[i]);
    hide Chain.Save, SameDemands, Prepared;
    assert Straight.Final(env, i) == Handed(s, b.builders[i]);
  }
}
