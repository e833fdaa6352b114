/**
 `AccountCreateBulk.Save` as it runs: an object whose slices are filled by index from nested calls.
 Each method is tied to the function of module `BulkChain` it implements.
 */
module BulkSave {
  import opened Text
  import Chain = BulkChain

  class Run<D, S, N> {
    const env: Chain.Env<D, S, N>
    var specs: seq<Option<S>>
    var keys: seq<Option<int>>
    var nodes: seq<Option<N>>
    var store: seq<Chain.Mut<D>>
    var current: seq<nat>
    var batches: nat
    var trace: seq<Chain.Event<S>>

    function Now(): Chain.State<D, S, N>
      reads this
    {
      Chain.State(specs, keys, nodes, store, current, batches, trace)
    }

    ghost predicate Valid()
      reads this
    {
      Chain.Wf(env, Now())
    }

    /** The slices made, and one mutation per builder. */
    constructor (env: Chain.Env<D, S, N>)
      ensures this.env == env && Valid() && Now() == Chain.Initial(env)
    {
      this.env := env;
      var n := |env.builders|;
      specs := seq(n, _ => None);
      keys := seq(n, _ => None);
      nodes := seq(n, _ => None);
      store := seq(n, i requires 0 <= i < n => Chain.Mut(env.builders[i].data, false));
      current := seq(n, i => i);
      batches := 0;
      trace := [];
    }

    method Mutate(i: nat, h: nat, m: nat) returns (out: Chain.Outcome)
      requires Valid() && i < |env.builders| && h <= |env.builders[i].hooks| && m < |store|
      modifies this
      ensures Valid() && |old(store)| <= |store|
      ensures Chain.Result(Now(), out) == Chain.Mutate(env, i, h, m, old(Now()))
      decreases |env.builders| - i, |env.builders[i].hooks| - h,
                if h < |env.builders[i].hooks| then env.builders[i].hooks[h].limit + 1 else 1
    {
      if h == |env.builders[i].hooks| {
        out := BaseMutate(i, m);
      } else {
        trace := trace + [Chain.Enter(i, h)];
        out := CallNext(i, h, m);
        trace := trace + [Chain.Exit(i, h)];
      }
    }

    /** The body of hook `h`: its calls of `next`, one after the other. */
    method CallNext(i: nat, h: nat, m: nat) returns (out: Chain.Outcome)
      requires Valid() && i < |env.builders| && h < |env.builders[i].hooks| && m < |store|
      modifies this
      ensures Valid() && |old(store)| <= |store|
      ensures Chain.Result(Now(), out) == Chain.Calls(env, i, h, m, [], old(Now()))
      decreases |env.builders| - i, |env.builders[i].hooks| - h, env.builders[i].hooks[h].limit
    {
      var hook := env.builders[i].hooks[h];
      var results: seq<Chain.Outcome> := [];
      while |results| < hook.limit && hook.again(results)
        invariant Valid() && m < |store| && |old(store)| <= |store|
        invariant |results| <= hook.limit
        invariant Chain.Calls(env, i, h, m, results, Now()) == Chain.Calls(env, i, h, m, [], old(Now()))
        decreases hook.limit - |results|
      {
        var edited := hook.edit(results, store[m].data);
        var passed := m;
        if hook.swaps(results) {
          passed := |store|;
          store := store + [Chain.Mut(edited, false)];
        } else {
          store := store[m := store[m].(data := edited)];
        }
        var o := Mutate(i, h + 1, passed);
        results := results + [o];
      }
      out := hook.answer(results);
    }

    method BaseMutate(i: nat, m: nat) returns (out: Chain.Outcome)
      requires Valid() && i < |env.builders| && m < |store|
      modifies this
      ensures Valid() && |old(store)| <= |store|
      ensures Chain.Result(Now(), out) == Chain.Base(env, i, m, old(Now()))
      decreases |env.builders| - i, 0, 0
    {
      if !env.check(store[current[i]].data) {
        return Chain.Failed(Chain.CheckFailed(i));
      }
      current := current[i := m];
      specs := specs[i := Some(env.spec(i, store[m].data))];
      keys := keys[i := None];
      nodes := nodes[i := Some(env.node(store[m].data))];
      if i + 1 < |env.builders| {
        out := Mutate(i + 1, 0, current[i + 1]);
      } else {
        out := BatchCreate();
      }
      if out.Failed? {
        return;
      }
      if keys[i].Some? && nodes[i].Some? {
        nodes := nodes[i := Some(env.keyed(nodes[i].value, keys[i].value))];
      }
      store := store[m := store[m].(done := true)];
      out := Chain.Ok;
    }

    method BatchCreate() returns (out: Chain.Outcome)
      requires Valid()
      modifies this
      ensures Valid() && store == old(store)
      ensures Chain.Result(Now(), out) == Chain.Insert(env, old(Now()))
    {
      var answer := env.batch(batches, specs);
      batches := batches + 1;
      match answer {
        case Refused(constraint) =>
          trace := trace + [Chain.Batch(specs, false)];
          out := Chain.Failed(Chain.BatchFailed(constraint));
        case Inserted(given) =>
          keys := seq(|keys|, j => given(j));
          trace := trace + [Chain.Batch(specs, true)];
          out := Chain.Ok;
      }
    }

    method Save() returns (out: Chain.Outcome)
      requires Now() == Chain.Initial(env)
      modifies this
      ensures Valid()
      ensures Chain.Result(Now(), out) == Chain.Save(env)
    {
      if env.builders == [] {
        return Chain.Ok;
      }
      out := Mutate(0, 0, current[0]);
    }
  }
}
