/** Success of a bulk create can be trusted as long as no hook reports a success it did not receive. */
module BulkFaithful {
  import opened BulkChain

  /** The hook has called `next` for each of these results. */
  predicate Ongoing<D>(hook: Hook<D>, results: seq<Outcome>) {
    |results| <= hook.limit && forall k :: 0 <= k < |results| ==> hook.again(results[..k])
  }

  /** After these results the hook stops and answers. */
  predicate Reached<D>(hook: Hook<D>, results: seq<Outcome>) {
    Ongoing(hook, results) && (|results| == hook.limit || !hook.again(results))
  }

  predicate LastOk(results: seq<Outcome>) {
    results != [] && results[|results| - 1] == Ok
  }

  /** The hook answers success only when its last call of `next` did. It may call `next` any number of
      times, fail on its own, edit the mutation or hand on another one. */
  ghost predicate Faithful<D>(hook: Hook<D>) {
    forall results :: Reached(hook, results) && hook.answer(results) == Ok ==> LastOk(results)
  }

  ghost predicate AllFaithful<D, S, N>(env: Env<D, S, N>) {
    forall i, h :: 0 <= i < |env.builders| && 0 <= h < |env.builders[i].hooks| ==> Faithful(env.builders[i].hooks[h])
  }

  ghost predicate SomeInsert<S>(trace: seq<Event<S>>) {
    exists k :: 0 <= k < |trace| && trace[k].Batch? && trace[k].inserted
  }

  /** An accepted batch is on record, and the builders from `i` on are done. */
  ghost predicate Succeeded<D, S, N>(env: Env<D, S, N>, i: nat, st: State<D, S, N>) {
    && Wf(env, st)
    && SomeInsert(st.trace)
    && forall j :: i <= j < |env.builders| ==> st.store[st.current[j]].done
  }

  /** What later steps keep: the record grows, and builders before `i` keep their mutation. */
  ghost predicate Keeps<D, S, N>(env: Env<D, S, N>, i: nat, st: State<D, S, N>, st': State<D, S, N>) {
    && Wf(env, st) && Wf(env, st')
    && |st.store| <= |st'.store|
    && forall j :: 0 <= j < i && j < |env.builders| ==> st'.current[j] == st.current[j]
  }

  lemma OngoingSnoc<D>(hook: Hook<D>, results: seq<Outcome>, o: Outcome)
    requires Ongoing(hook, results) && |results| < hook.limit && hook.again(results)
    ensures Ongoing(hook, results + [o])
  {
    var more := results + [o];
    forall k | 0 <= k < |more|
      ensures hook.again(more[..k])
    {
      assert more[..k] == results[..k];
      assert results[..|results|] == results;
    }
  }

  lemma LogSucceeded<D, S, N>(env: Env<D, S, N>, i: nat, st: State<D, S, N>, e: Event<S>)
    requires Succeeded(env, i, st)
    ensures Succeeded(env, i, Log(st, e))
  {
    var k :| 0 <= k < |st.trace| && st.trace[k].Batch? && st.trace[k].inserted;
    assert Log(st, e).trace[k] == st.trace[k];
  }

  lemma {:induction false} MutateSucceeds<D, S, N>(env: Env<D, S, N>, i: nat, h: nat, m: nat, st: State<D, S, N>)
    requires Wf(env, st) && i < |env.builders| && h <= |env.builders[i].hooks| && m < |st.store|
    requires AllFaithful(env)
    ensures Keeps(env, i, st, Mutate(env, i, h, m, st).st)
    ensures Mutate(env, i, h, m, st).out.Ok? ==> Succeeded(env, i, Mutate(env, i, h, m, st).st)
    decreases |env.builders| - i, |env.builders[i].hooks| - h,
              if h < |env.builders[i].hooks| then env.builders[i].hooks[h].limit + 1 else 1
  {
    if h == |env.builders[i].hooks| {
      BaseSucceeds(env, i, m, st);
    } else {
      CallsSucceed(env, i, h, m, [], Log(st, Enter(i, h)));
      var r := Calls(env, i, h, m, [], Log(st, Enter(i, h)));
      if r.out.Ok? {
        LogSucceeded(env, i, r.st, Exit(i, h));
      }
    }
  }

  lemma {:induction false} CallsSucceed<D, S, N>(env: Env<D, S, N>, i: nat, h: nat, m: nat, results: seq<Outcome>,
                                                 st: State<D, S, N>)
    requires Wf(env, st) && i < |env.builders| && h < |env.builders[i].hooks| && m < |st.store|
    requires |results| <= env.builders[i].hooks[h].limit
    requires AllFaithful(env) && Ongoing(env.builders[i].hooks[h], results)
    requires LastOk(results) ==> Succeeded(env, i, st)
    ensures Keeps(env, i, st, Calls(env, i, h, m, results, st).st)
    ensures Calls(env, i, h, m, results, st).out.Ok? ==> Succeeded(env, i, Calls(env, i, h, m, results, st).st)
    decreases |env.builders| - i, |env.builders[i].hooks| - h, env.builders[i].hooks[h].limit - |results|
  {
    var hook := env.builders[i].hooks[h];
    if |results| < hook.limit && hook.again(results) {
      var (st1, m1) := Pass(hook, results, m, st);
      MutateSucceeds(env, i, h + 1, m1, st1);
      var r := Mutate(env, i, h + 1, m1, st1);
      OngoingSnoc(hook, results, r.out);
      CallsSucceed(env, i, h, m, results + [r.out], r.st);
    } else {
      assert Faithful(hook);
    }
  }

  lemma {:induction false} BaseSucceeds<D, S, N>(env: Env<D, S, N>, i: nat, m: nat, st: State<D, S, N>)
    requires Wf(env, st) && i < |env.builders| && m < |st.store|
    requires AllFaithful(env)
    ensures Keeps(env, i, st, Base(env, i, m, st).st)
    ensures Base(env, i, m, st).out.Ok? ==> Succeeded(env, i, Base(env, i, m, st).st)
    decreases |env.builders| - i, 0, 0
  {
    if env.check(st.store[st.current[i]].data) {
      var st1 := Create(env, i, m, st);
      if i + 1 < |env.builders| {
        MutateSucceeds(env, i + 1, 0, st1.current[i + 1], st1);
        var r := Mutate(env, i + 1, 0, st1.current[i + 1], st1);
        if r.out.Ok? {
          SettleSucceeds(env, i, m, r.st);
        }
      } else {
        var r := Insert(env, st1);
        if r.out.Ok? {
          assert r.st.trace[|st1.trace|] == Batch(st1.specs, true);
          SettleSucceeds(env, i, m, r.st);
        }
      }
    }
  }

  lemma SettleSucceeds<D, S, N>(env: Env<D, S, N>, i: nat, m: nat, st: State<D, S, N>)
    requires Succeeded(env, i + 1, st) && i < |env.builders| && m < |st.store| && st.current[i] == m
    ensures Succeeded(env, i, Settle(env, i, m, st))
  {
  }

  /** A reported success is one: a batch insert was accepted and every builder's mutation is done. */
  ghost predicate Trusted<D, S, N>(env: Env<D, S, N>) {
    Save(env).out.Ok? ==> Succeeded(env, 0, Save(env).st)
  }

  /** If every hook is faithful, a bulk create that reports success (of at least one builder) has issued
      a batch insert that was accepted, and every builder's mutation is done. */
  lemma SuccessIsReal<D, S, N>(env: Env<D, S, N>)
    requires AllFaithful(env) && env.builders != []
    ensures Trusted(env)
  {
    var st := Initial(env);
    MutateSucceeds(env, 0, 0, st.current[0], st);
  }

  /** A hook that calls `next` once and answers success regardless. */
  function Swallowing<D>(): Hook<D> {
    Hook((results: seq<Outcome>, d: D) => d, (results: seq<Outcome>) => false, 1, (results: seq<Outcome>) => true,
         (results: seq<Outcome>) => Ok)
  }

  /** Such a hook makes a bulk create succeed although its check fails and nothing is inserted. */
  lemma SwallowedCheck<D, S, N>(env: Env<D, S, N>, d: D)
    requires env.builders == [Builder(d, [Swallowing()])] && !env.check(d)
    ensures Save(env).out.Ok? && Save(env).st.batches == 0
  {
    var hook := Swallowing<D>();
    var st := Initial(env);
    var st1 := Log(st, Enter(0, 0));
    var (st2, m2) := Pass(hook, [], 0, st1);
    assert Mutate(env, 0, 1, m2, st2) == Base(env, 0, m2, st2) == Result(st2, Failed(CheckFailed(0)));
    assert Calls(env, 0, 0, 0, [], st1) == Calls(env, 0, 0, 0, [] + [Failed(CheckFailed(0))], st2);
    assert Calls(env, 0, 0, 0, [Failed(CheckFailed(0))], st2) == Result(st2, Ok);
    assert [] + [Failed(CheckFailed(0))] == [Failed(CheckFailed(0))];
    assert Save(env) == Mutate(env, 0, 0, 0, st);
  }
}
