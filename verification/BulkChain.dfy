/**
 The chain of mutators that `AccountCreateBulk.Save` builds (backend/ent/account_create.go): each
 builder's hooks wrap a base mutator that checks its builder, builds its specification, calls the
 next builder's mutator and, in the last one, issues the one batch insert.

 The chain is generic in the data `D` of a mutation, the specification `S` and the node `N`, so that
 nothing here depends on the entity. Mutations are objects: they live in a store and are passed by
 reference, because a hook may edit the mutation it was given or hand another one to `next`.
 */
module BulkChain {
  import opened Text

  datatype Error = CheckFailed(builder: nat) | BatchFailed(constraint: bool) | HookFailed(code: int)

  datatype Outcome = Ok | Failed(error: Error)

  /** A mutation object. */
  datatype Mut<D> = Mut(data: D, done: bool)

  /**
   What a hook does: looking at the results of its calls so far, it decides whether to call `next`
   (again, at most `limit` times); if so it edits the mutation it was given, in place or into a new
   object (`swaps`), and hands that on; if not it returns its answer.
   */
  datatype Hook<!D> = Hook(edit: (seq<Outcome>, D) -> D, swaps: seq<Outcome> -> bool, limit: nat,
                           again: seq<Outcome> -> bool, answer: seq<Outcome> -> Outcome)

  datatype Builder<!D> = Builder(data: D, hooks: seq<Hook<D>>)

  /** The result of one `sqlgraph.BatchCreate`; on success some specifications receive a key. */
  datatype BatchResult = Inserted(keys: int -> Option<int>) | Refused(constraint: bool)

  /** The builders, the entity's functions, and the database's answer to the `n`-th batch call. */
  datatype Env<!D, !S, !N> = Env(
    builders: seq<Builder<D>>,
    check: D -> bool,
    spec: (nat, D) -> S,
    node: D -> N,
    keyed: (N, int) -> N,
    batch: (nat, seq<Option<S>>) -> BatchResult)

  datatype Event<S> =
    | Enter(builder: nat, hook: nat)
    | Exit(builder: nat, hook: nat)
    | Batch(specs: seq<Option<S>>, inserted: bool)

  /** The slices of `Save`, the mutation objects, each builder's current one, and what has happened. */
  datatype State<D, S, N> = State(
    specs: seq<Option<S>>,
    keys: seq<Option<int>>,
    nodes: seq<Option<N>>,
    store: seq<Mut<D>>,
    current: seq<nat>,
    batches: nat,
    trace: seq<Event<S>>)

  ghost predicate Wf<D, S, N>(env: Env<D, S, N>, st: State<D, S, N>) {
    && |st.specs| == |st.keys| == |st.nodes| == |st.current| == |env.builders|
    && forall i :: 0 <= i < |st.current| ==> st.current[i] < |st.store|
  }

  datatype Result<D, S, N> = Result(st: State<D, S, N>, out: Outcome)

  /** What a hook passes on after these results: the same mutation edited, or a new one. */
  function Pass<D, S, N>(hook: Hook<D>, results: seq<Outcome>, m: nat, st: State<D, S, N>): (State<D, S, N>, nat)
    requires m < |st.store|
  {
    var d := hook.edit(results, st.store[m].data);
    if hook.swaps(results) then (st.(store := st.store + [Mut(d, false)]), |st.store|)
    else (st.(store := st.store[m := st.store[m].(data := d)]), m)
  }

  function Log<D, S, N>(st: State<D, S, N>, e: Event<S>): State<D, S, N> {
    st.(trace := st.trace + [e])
  }

  /** `builder.mutation = mutation`, then `nodes[i], specs[i] = builder.createSpec()`. */
  function Create<D, S, N>(env: Env<D, S, N>, i: nat, m: nat, st: State<D, S, N>): State<D, S, N>
    requires Wf(env, st) && i < |env.builders| && m < |st.store|
  {
    var d := st.store[m].data;
    st.(current := st.current[i := m],
        specs := st.specs[i := Some(env.spec(i, d))],
        keys := st.keys[i := None],
        nodes := st.nodes[i := Some(env.node(d))])
  }

  /** The batch insert, which fills in the keys it received. */
  function Insert<D, S, N>(env: Env<D, S, N>, st: State<D, S, N>): Result<D, S, N>
    requires Wf(env, st)
  {
    var counted := st.(batches := st.batches + 1);
    match env.batch(st.batches, st.specs)
    case Refused(constraint) => Result(Log(counted, Batch(st.specs, false)), Failed(BatchFailed(constraint)))
    case Inserted(keys) =>
      Result(Log(counted.(keys := seq(|st.keys|, j => keys(j))), Batch(st.specs, true)), Ok)
  }

  /** After success: the node gets its key, if there is one, and the mutation is done. */
  function Settle<D, S, N>(env: Env<D, S, N>, i: nat, m: nat, st: State<D, S, N>): State<D, S, N>
    requires Wf(env, st) && i < |env.builders| && m < |st.store|
  {
    var nodes :=
      if st.keys[i].Some? && st.nodes[i].Some? then st.nodes[i := Some(env.keyed(st.nodes[i].value, st.keys[i].value))]
      else st.nodes;
    st.(nodes := nodes, store := st.store[m := st.store[m].(done := true)])
  }

  /** The mutator of builder `i` from its hook `h` inward, on the mutation object `m`. */
  function Mutate<D, S, N>(env: Env<D, S, N>, i: nat, h: nat, m: nat, st: State<D, S, N>): (r: Result<D, S, N>)
    requires Wf(env, st) && i < |env.builders| && h <= |env.builders[i].hooks| && m < |st.store|
    ensures Wf(env, r.st) && |st.store| <= |r.st.store|
    decreases |env.builders| - i, |env.builders[i].hooks| - h,
              if h < |env.builders[i].hooks| then env.builders[i].hooks[h].limit + 1 else 1
  {
    if h == |env.builders[i].hooks| then Base(env, i, m, st)
    else
      var r := Calls(env, i, h, m, [], Log(st, Enter(i, h)));
      r.(st := Log(r.st, Exit(i, h)))
  }

  /** The body of hook `h` after it has seen `results`. */
  function Calls<D, S, N>(env: Env<D, S, N>, i: nat, h: nat, m: nat, results: seq<Outcome>, st: State<D, S, N>)
    : (r: Result<D, S, N>)
    requires Wf(env, st) && i < |env.builders| && h < |env.builders[i].hooks| && m < |st.store|
    requires |results| <= env.builders[i].hooks[h].limit
    ensures Wf(env, r.st) && |st.store| <= |r.st.store|
    decreases |env.builders| - i, |env.builders[i].hooks| - h, env.builders[i].hooks[h].limit - |results|
  {
    var hook := env.builders[i].hooks[h];
    if |results| < hook.limit && hook.again(results) then
      var (st1, m1) := Pass(hook, results, m, st);
      var r := Mutate(env, i, h + 1, m1, st1);
      Calls(env, i, h, m, results + [r.out], r.st)
    else Result(st, hook.answer(results))
  }

  /** The base mutator: it checks the builder's current mutation, and only then adopts the one passed. */
  function Base<D, S, N>(env: Env<D, S, N>, i: nat, m: nat, st: State<D, S, N>): (r: Result<D, S, N>)
    requires Wf(env, st) && i < |env.builders| && m < |st.store|
    ensures Wf(env, r.st) && |st.store| <= |r.st.store|
    decreases |env.builders| - i, 0, 0
  {
    if !env.check(st.store[st.current[i]].data) then Result(st, Failed(CheckFailed(i)))
    else
      var st1 := Create(env, i, m, st);
      var r := if i + 1 < |env.builders| then Mutate(env, i + 1, 0, st1.current[i + 1], st1) else Insert(env, st1);
      if r.out.Failed? then r else Result(Settle(env, i, m, r.st), Ok)
  }

  /** The state when the loop that builds the mutators is over (`data` already has its defaults). */
  function Initial<D, S, N>(env: Env<D, S, N>): (st: State<D, S, N>)
    ensures Wf(env, st)
  {
    var n := |env.builders|;
    State(seq(n, _ => None), seq(n, _ => None), seq(n, _ => None),
          seq(n, i requires 0 <= i < n => Mut(env.builders[i].data, false)),
          seq(n, i => i), 0, [])
  }

  function Save<D, S, N>(env: Env<D, S, N>): (r: Result<D, S, N>)
    ensures Wf(env, r.st)
  {
    var st := Initial(env);
    if env.builders == [] then Result(st, Ok) else Mutate(env, 0, 0, st.current[0], st)
  }
}
