/** What every run of the bulk chain keeps, whatever its hooks do: hook calls are properly nested, and
    no batch insert is ever issued with an unfilled specification. */
module BulkAnyHooks {
  import opened Text
  import opened BulkChain

  type Stack = seq<(nat, nat)>

  /** Follow a trace with a stack of open hook calls; `None` if an exit does not match. */
  function Follow<S>(stack: Stack, events: seq<Event<S>>): Option<Stack>
    decreases |events|
  {
    if events == [] then Some(stack)
    else match events[0]
      case Enter(i, h) => Follow(stack + [(i, h)], events[1..])
      case Exit(i, h) =>
        if stack != [] && stack[|stack| - 1] == (i, h) then Follow(stack[..|stack| - 1], events[1..]) else None
      case Batch(_, _) => Follow(stack, events[1..])
  }

  lemma {:induction false} FollowConcat<S>(stack: Stack, a: seq<Event<S>>, b: seq<Event<S>>)
    ensures Follow(stack, a + b) ==
            if Follow(stack, a).None? then None else Follow(Follow(stack, a).value, b)
    decreases |a|
  {
    if a == [] {
      assert a + b == b;
    } else {
      assert (a + b)[1..] == a[1..] + b;
      match a[0] {
        case Enter(i, h) => FollowConcat(stack + [(i, h)], a[1..], b);
        case Exit(i, h) =>
          if stack != [] && stack[|stack| - 1] == (i, h) {
            FollowConcat(stack[..|stack| - 1], a[1..], b);
          }
        case Batch(_, _) => FollowConcat(stack, a[1..], b);
      }
    }
  }

  /** Every hook call that the events open they also close, in reverse order. */
  ghost predicate Balanced<S>(events: seq<Event<S>>) {
    forall stack: Stack :: Follow(stack, events) == Some(stack)
  }

  predicate Full<S>(specs: seq<Option<S>>) {
    forall j :: 0 <= j < |specs| ==> specs[j].Some?
  }

  ghost predicate FullBatches<S>(n: nat, events: seq<Event<S>>) {
    forall k :: 0 <= k < |events| && events[k].Batch? ==> |events[k].specs| == n && Full(events[k].specs)
  }

  /** What a run adds to a state. */
  ghost predicate Tidy<D, S, N>(env: Env<D, S, N>, st: State<D, S, N>, st': State<D, S, N>) {
    && Wf(env, st) && Wf(env, st')
    && st.trace <= st'.trace
    && Balanced(st'.trace[|st.trace|..])
    && FullBatches(|env.builders|, st'.trace[|st.trace|..])
    && forall j :: 0 <= j < |st.specs| && st.specs[j].Some? ==> st'.specs[j].Some?
  }

  lemma BalancedConcat<S>(a: seq<Event<S>>, b: seq<Event<S>>)
    requires Balanced(a) && Balanced(b)
    ensures Balanced(a + b)
  {
    forall stack: Stack
      ensures Follow(stack, a + b) == Some(stack)
    {
      FollowConcat(stack, a, b);
    }
  }

  lemma BalancedWrap<S>(i: nat, h: nat, a: seq<Event<S>>)
    requires Balanced(a)
    ensures Balanced([Enter(i, h)] + a + [Exit(i, h)])
  {
    forall stack: Stack
      ensures Follow(stack, [Enter(i, h)] + a + [Exit(i, h)]) == Some(stack)
    {
      var inner := stack + [(i, h)];
      var exit: seq<Event<S>> := [Exit(i, h)];
      assert Follow(inner, a) == Some(inner);
      FollowConcat(inner, a, exit);
      assert exit[1..] == [];
      assert inner[..|inner| - 1] == stack;
      assert Follow<S>(stack, []) == Some(stack);
      assert Follow(inner, exit) == Some(stack);
      assert ([Enter(i, h)] + a + exit)[1..] == a + exit;
    }
  }

  lemma BalancedSmall<S>(e: Event<S>)
    requires e.Batch?
    ensures Balanced<S>([]) && Balanced([e])
  {
    forall stack: Stack
      ensures Follow(stack, [e]) == Some(stack)
    {
      assert [e][1..] == [];
    }
  }

  lemma TidyTrans<D, S, N>(env: Env<D, S, N>, a: State<D, S, N>, b: State<D, S, N>, c: State<D, S, N>)
    requires Tidy(env, a, b) && Tidy(env, b, c)
    ensures Tidy(env, a, c)
  {
    var x, y := b.trace[|a.trace|..], c.trace[|b.trace|..];
    assert c.trace[|a.trace|..] == x + y;
    BalancedConcat(x, y);
  }

  /** Steps that log nothing and unfill nothing. */
  lemma TidyQuiet<D, S, N>(env: Env<D, S, N>, a: State<D, S, N>, b: State<D, S, N>)
    requires Wf(env, a) && Wf(env, b) && a.trace == b.trace
    requires forall j :: 0 <= j < |a.specs| && a.specs[j].Some? ==> b.specs[j].Some?
    ensures Tidy(env, a, b)
  {
    assert b.trace[|a.trace|..] == [];
    assert forall stack: Stack :: Follow<S>(stack, []) == Some(stack);
  }

  lemma TidyWrap<D, S, N>(env: Env<D, S, N>, i: nat, h: nat, st: State<D, S, N>, st': State<D, S, N>)
    requires Tidy(env, Log(st, Enter(i, h)), st')
    ensures Tidy(env, st, Log(st', Exit(i, h)))
  {
    var a := st'.trace[|st.trace| + 1..];
    var out := Log(st', Exit(i, h));
    assert out.trace[|st.trace|..] == [Enter(i, h)] + a + [Exit(i, h)];
    BalancedWrap<S>(i, h, a);
    assert st.trace <= out.trace;
  }

  lemma TidyInsert<D, S, N>(env: Env<D, S, N>, st: State<D, S, N>)
    requires Wf(env, st) && Full(st.specs)
    ensures Tidy(env, st, Insert(env, st).st)
  {
    var e := Batch(st.specs, Insert(env, st).out.Ok?);
    assert Insert(env, st).st.trace[|st.trace|..] == [e];
    BalancedSmall(e);
  }

  predicate FilledBelow<D, S, N>(st: State<D, S, N>, i: nat) {
    i <= |st.specs| && forall j :: 0 <= j < i ==> st.specs[j].Some?
  }

  lemma {:induction false} MutateTidy<D, S, N>(env: Env<D, S, N>, i: nat, h: nat, m: nat, st: State<D, S, N>)
    requires Wf(env, st) && i < |env.builders| && h <= |env.builders[i].hooks| && m < |st.store|
    requires FilledBelow(st, i)
    ensures Tidy(env, st, Mutate(env, i, h, m, st).st)
    decreases |env.builders| - i, |env.builders[i].hooks| - h,
              if h < |env.builders[i].hooks| then env.builders[i].hooks[h].limit + 1 else 1
  {
    if h == |env.builders[i].hooks| {
      BaseTidy(env, i, m, st);
    } else {
      CallsTidy(env, i, h, m, [], Log(st, Enter(i, h)));
      TidyWrap(env, i, h, st, Calls(env, i, h, m, [], Log(st, Enter(i, h))).st);
    }
  }

  lemma {:induction false} CallsTidy<D, S, N>(env: Env<D, S, N>, i: nat, h: nat, m: nat, results: seq<Outcome>,
                                              st: State<D, S, N>)
    requires Wf(env, st) && i < |env.builders| && h < |env.builders[i].hooks| && m < |st.store|
    requires |results| <= env.builders[i].hooks[h].limit
    requires FilledBelow(st, i)
    ensures Tidy(env, st, Calls(env, i, h, m, results, st).st)
    decreases |env.builders| - i, |env.builders[i].hooks| - h, env.builders[i].hooks[h].limit - |results|
  {
    var hook := env.builders[i].hooks[h];
    if |results| < hook.limit && hook.again(results) {
      var (st1, m1) := Pass(hook, results, m, st);
      TidyQuiet(env, st, st1);
      MutateTidy(env, i, h + 1, m1, st1);
      var r := Mutate(env, i, h + 1, m1, st1);
      CallsTidy(env, i, h, m, results + [r.out], r.st);
      TidyTrans(env, st, st1, r.st);
      TidyTrans(env, st, r.st, Calls(env, i, h, m, results, st).st);
    } else {
      TidyQuiet(env, st, st);
    }
  }

  lemma {:induction false} BaseTidy<D, S, N>(env: Env<D, S, N>, i: nat, m: nat, st: State<D, S, N>)
    requires Wf(env, st) && i < |env.builders| && m < |st.store|
    requires FilledBelow(st, i)
    ensures Tidy(env, st, Base(env, i, m, st).st)
    decreases |env.builders| - i, 0, 0
  {
    TidyQuiet(env, st, st);
    if env.check(st.store[st.current[i]].data) {
      var st1 := Create(env, i, m, st);
      TidyQuiet(env, st, st1);
      var r: Result<D, S, N>;
      if i + 1 < |env.builders| {
        MutateTidy(env, i + 1, 0, st1.current[i + 1], st1);
        r := Mutate(env, i + 1, 0, st1.current[i + 1], st1);
      } else {
        TidyInsert(env, st1);
        r := Insert(env, st1);
      }
      TidyTrans(env, st, st1, r.st);
      if r.out.Ok? {
        TidyQuiet(env, r.st, Settle(env, i, m, r.st));
        TidyTrans(env, st, r.st, Settle(env, i, m, r.st));
      }
    }
  }

  /** Whatever the hooks do - call `next` never, once or many times, swallow errors, hand on other
      mutations - hook calls are properly nested and every batch insert carries a specification for
      every builder. */
  lemma AnyHooks<D, S, N>(env: Env<D, S, N>)
    ensures Follow([], Save(env).st.trace) == Some([])
    ensures FullBatches(|env.builders|, Save(env).st.trace)
  {
    if env.builders != [] {
      var st := Initial(env);
      MutateTidy(env, 0, 0, st.current[0], st);
      assert Save(env).st.trace[0..] == Save(env).st.trace;
    }
  }

  // ---------------------------------------------------------------------------
  // How many batch inserts there can be
  // ---------------------------------------------------------------------------

  /** The product of the numbers of times that the hooks from `h` of builder `i` on may call `next`. */
  function CallBound<D, S, N>(env: Env<D, S, N>, i: nat, h: nat): nat
    requires i < |env.builders| && h <= |env.builders[i].hooks|
    decreases |env.builders| - i, |env.builders[i].hooks| - h
  {
    if h < |env.builders[i].hooks| then env.builders[i].hooks[h].limit * CallBound(env, i, h + 1)
    else if i + 1 < |env.builders| then CallBound(env, i + 1, 0)
    else 1
  }

  lemma {:induction false} MutateBatches<D, S, N>(env: Env<D, S, N>, i: nat, h: nat, m: nat, st: State<D, S, N>)
    requires Wf(env, st) && i < |env.builders| && h <= |env.builders[i].hooks| && m < |st.store|
    ensures st.batches <= Mutate(env, i, h, m, st).st.batches <= st.batches + CallBound(env, i, h)
    decreases |env.builders| - i, |env.builders[i].hooks| - h,
              if h < |env.builders[i].hooks| then env.builders[i].hooks[h].limit + 1 else 1
  {
    if h == |env.builders[i].hooks| {
      BaseBatches(env, i, m, st);
    } else {
      CallsBatches(env, i, h, m, [], Log(st, Enter(i, h)));
    }
  }

  lemma Less(left: nat, bound: nat)
    ensures left * bound >= 0 && (left - 1) * bound + bound == left * bound
  {
  }

  lemma {:induction false} CallsBatches<D, S, N>(env: Env<D, S, N>, i: nat, h: nat, m: nat, results: seq<Outcome>,
                                                 st: State<D, S, N>)
    requires Wf(env, st) && i < |env.builders| && h < |env.builders[i].hooks| && m < |st.store|
    requires |results| <= env.builders[i].hooks[h].limit
    ensures st.batches <= Calls(env, i, h, m, results, st).st.batches
    ensures Calls(env, i, h, m, results, st).st.batches <=
            st.batches + (env.builders[i].hooks[h].limit - |results|) * CallBound(env, i, h + 1)
    decreases |env.builders| - i, |env.builders[i].hooks| - h, env.builders[i].hooks[h].limit - |results|
  {
    var hook := env.builders[i].hooks[h];
    var left, bound: nat := hook.limit - |results|, CallBound(env, i, h + 1);
    hide CallBound;
    if |results| < hook.limit && hook.again(results) {
      var (st1, m1) := Pass(hook, results, m, st);
      MutateBatches(env, i, h + 1, m1, st1);
      var r := Mutate(env, i, h + 1, m1, st1);
      CallsBatches(env, i, h, m, results + [r.out], r.st);
      Less(left, bound);
    } else {
      Less(left, bound);
    }
  }

  lemma {:induction false} BaseBatches<D, S, N>(env: Env<D, S, N>, i: nat, m: nat, st: State<D, S, N>)
    requires Wf(env, st) && i < |env.builders| && m < |st.store|
    ensures st.batches <= Base(env, i, m, st).st.batches <=
            st.batches + CallBound(env, i, |env.builders[i].hooks|)
    decreases |env.builders| - i, 0, 0
  {
    if env.check(st.store[st.current[i]].data) && i + 1 < |env.builders| {
      var st1 := Create(env, i, m, st);
      MutateBatches(env, i + 1, 0, st1.current[i + 1], st1);
    }
  }

  ghost predicate AtMostOnce<D, S, N>(env: Env<D, S, N>) {
    forall i, h :: 0 <= i < |env.builders| && 0 <= h < |env.builders[i].hooks| ==> env.builders[i].hooks[h].limit <= 1
  }

  lemma {:induction false} BoundedByOne<D, S, N>(env: Env<D, S, N>, i: nat, h: nat)
    requires AtMostOnce(env) && i < |env.builders| && h <= |env.builders[i].hooks|
    ensures CallBound(env, i, h) <= 1
    decreases |env.builders| - i, |env.builders[i].hooks| - h
  {
    if h < |env.builders[i].hooks| {
      BoundedByOne(env, i, h + 1);
      assert env.builders[i].hooks[h].limit == 0 || env.builders[i].hooks[h].limit == 1;
    } else if i + 1 < |env.builders| {
      BoundedByOne(env, i + 1, 0);
    }
  }

  /** Whatever the hooks do, the number of batch inserts is at most the product of the numbers of times they
      may call `next`; so with hooks that call it at most once - swallowing, failing and swapping ones
      included - there is at most one. */
  lemma BatchesBounded<D, S, N>(env: Env<D, S, N>)
    ensures env.builders == [] ==> Save(env).st.batches == 0
    ensures env.builders != [] ==> Save(env).st.batches <= CallBound(env, 0, 0)
    ensures AtMostOnce(env) ==> Save(env).st.batches <= 1
  {
    if env.builders != [] {
      var st := Initial(env);
      MutateBatches(env, 0, 0, st.current[0], st);
      if AtMostOnce(env) {
        BoundedByOne(env, 0, 0);
      }
    }
  }
}
