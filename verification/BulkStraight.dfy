/**
 The bulk chain when every hook calls `next` exactly once and passes its result on: the exact run.
 One batch insert or none, all mutations done or none, hooks entered in order and left in exact
 reverse, and every specification built from the mutation that came out of its builder's hooks.
 */
module BulkStraight {
  import opened Text
  import opened BulkChain

  /** The hook calls `next` once and returns what it got. */
  ghost predicate Straight<D>(hook: Hook<D>) {
    && hook.limit >= 1 && hook.again([])
    && forall o :: (hook.limit == 1 || !hook.again([o])) && hook.answer([o]) == o
  }

  ghost predicate AllStraight<D, S, N>(env: Env<D, S, N>) {
    forall i, h :: 0 <= i < |env.builders| && 0 <= h < |env.builders[i].hooks| ==> Straight(env.builders[i].hooks[h])
  }

  /** The data that reaches the base mutator: every edit in order. */
  function FinalData<D>(hooks: seq<Hook<D>>, d: D): D
    decreases |hooks|
  {
    if hooks == [] then d else FinalData(hooks[1..], hooks[0].edit([], d))
  }

  /** The data in the builder's own mutation at that point: the edits before the first hook that hands
      on a new object. */
  function OwnData<D>(hooks: seq<Hook<D>>, d: D): D
    decreases |hooks|
  {
    if hooks == [] || hooks[0].swaps([]) then d else OwnData(hooks[1..], hooks[0].edit([], d))
  }

  function Final<D, S, N>(env: Env<D, S, N>, i: nat): D
    requires i < |env.builders|
  {
    FinalData(env.builders[i].hooks, env.builders[i].data)
  }

  function Own<D, S, N>(env: Env<D, S, N>, i: nat): D
    requires i < |env.builders|
  {
    OwnData(env.builders[i].hooks, env.builders[i].data)
  }

  predicate Accepted<D, S, N>(env: Env<D, S, N>, i: nat)
    requires i < |env.builders|
  {
    env.check(Own(env, i))
  }

  /** The first builder from `i` on whose check fails, or the number of builders. */
  function FirstBad<D, S, N>(env: Env<D, S, N>, i: nat): (k: nat)
    requires i <= |env.builders|
    ensures i <= k <= |env.builders|
    ensures forall j :: i <= j < k ==> Accepted(env, j)
    ensures k < |env.builders| ==> !Accepted(env, k)
    decreases |env.builders| - i
  {
    if i == |env.builders| || !Accepted(env, i) then i else FirstBad(env, i + 1)
  }

  /** What the batch insert carries: for each builder the specification of its final data. */
  function FullSpecs<D, S, N>(env: Env<D, S, N>): (s: seq<Option<S>>)
    ensures |s| == |env.builders|
    ensures forall j :: 0 <= j < |s| ==> s[j] == Some(env.spec(j, Final(env, j)))
  {
    seq(|env.builders|, j requires 0 <= j < |env.builders| => Some(env.spec(j, Final(env, j))))
  }

  // ---------------------------------------------------------------------------
  // Hooks unfold into a walk inward, the base mutator, and a walk outward
  // ---------------------------------------------------------------------------

  function WalkIn<D, S, N>(env: Env<D, S, N>, i: nat, h: nat, m: nat, st: State<D, S, N>): (r: (State<D, S, N>, nat))
    requires Wf(env, st) && i < |env.builders| && h <= |env.builders[i].hooks| && m < |st.store|
    ensures Wf(env, r.0) && r.1 < |r.0.store| && |st.store| <= |r.0.store|
    decreases |env.builders[i].hooks| - h
  {
    if h == |env.builders[i].hooks| then (st, m)
    else
      var (st1, m1) := Pass(env.builders[i].hooks[h], [], m, Log(st, Enter(i, h)));
      WalkIn(env, i, h + 1, m1, st1)
  }

  function WalkOut<D, S, N>(env: Env<D, S, N>, i: nat, h: nat, st: State<D, S, N>): State<D, S, N>
    requires i < |env.builders| && h <= |env.builders[i].hooks|
    decreases |env.builders[i].hooks| - h
  {
    if h == |env.builders[i].hooks| then st else Log(WalkOut(env, i, h + 1, st), Exit(i, h))
  }

  lemma {:induction false} MutateWalks<D, S, N>(env: Env<D, S, N>, i: nat, h: nat, m: nat, st: State<D, S, N>)
    requires Wf(env, st) && i < |env.builders| && h <= |env.builders[i].hooks| && m < |st.store|
    requires AllStraight(env)
    ensures var (st1, m1) := WalkIn(env, i, h, m, st);
            var r := Base(env, i, m1, st1);
            Mutate(env, i, h, m, st) == r.(st := WalkOut(env, i, h, r.st))
    decreases |env.builders[i].hooks| - h
  {
    if h < |env.builders[i].hooks| {
      var hook := env.builders[i].hooks[h];
      var st0 := Log(st, Enter(i, h));
      var (st1, m1) := Pass(hook, [], m, st0);
      assert Straight(hook);
      MutateWalks(env, i, h + 1, m1, st1);
      var r := Mutate(env, i, h + 1, m1, st1);
      assert Calls(env, i, h, m, [], st0) == Calls(env, i, h, m, [] + [r.out], r.st);
      assert [] + [r.out] == [r.out];
      assert Calls(env, i, h, m, [r.out], r.st) == Result(r.st, r.out);
    }
  }

  /** The walk inward changes only the object it was given, appends objects that are not done, and
      arrives with every edit applied; the builder's own object has the edits before the first swap. */
  lemma {:induction false} WalkInStore<D, S, N>(env: Env<D, S, N>, i: nat, h: nat, m: nat, st: State<D, S, N>)
    requires Wf(env, st) && i < |env.builders| && h <= |env.builders[i].hooks| && m < |st.store|
    ensures var (st1, m1) := WalkIn(env, i, h, m, st);
            && st1 == st.(store := st1.store, trace := st1.trace)
            && (m1 == m || |st.store| <= m1)
            && st1.store[m1].data == FinalData(env.builders[i].hooks[h..], st.store[m].data)
            && st1.store[m].data == OwnData(env.builders[i].hooks[h..], st.store[m].data)
            && (forall x :: 0 <= x < |st.store| && x != m ==> st1.store[x] == st.store[x])
            && st1.store[m].done == st.store[m].done
            && (forall x :: |st.store| <= x < |st1.store| ==> !st1.store[x].done)
    decreases |env.builders[i].hooks| - h
  {
    var hooks := env.builders[i].hooks;
    if h < |hooks| {
      var hook := hooks[h];
      var (st1, m1) := Pass(hook, [], m, Log(st, Enter(i, h)));
      WalkInStore(env, i, h + 1, m1, st1);
      assert hooks[h..][1..] == hooks[h + 1..];
      assert hooks[h..][0] == hook;
    } else {
      assert hooks[h..] == [];
    }
  }

  function Enters<D, S, N>(env: Env<D, S, N>, i: nat, h: nat): seq<Event<S>>
    requires i < |env.builders| && h <= |env.builders[i].hooks|
    decreases |env.builders[i].hooks| - h
  {
    if h == |env.builders[i].hooks| then [] else [Enter(i, h)] + Enters(env, i, h + 1)
  }

  function Exits<D, S, N>(env: Env<D, S, N>, i: nat, h: nat): seq<Event<S>>
    requires i < |env.builders| && h <= |env.builders[i].hooks|
    decreases |env.builders[i].hooks| - h
  {
    if h == |env.builders[i].hooks| then [] else Exits(env, i, h + 1) + [Exit(i, h)]
  }

  lemma {:induction false} WalkInTrace<D, S, N>(env: Env<D, S, N>, i: nat, h: nat, m: nat, st: State<D, S, N>)
    requires Wf(env, st) && i < |env.builders| && h <= |env.builders[i].hooks| && m < |st.store|
    ensures WalkIn(env, i, h, m, st).0.trace == st.trace + Enters(env, i, h)
    decreases |env.builders[i].hooks| - h
  {
    if h < |env.builders[i].hooks| {
      var (st1, m1) := Pass(env.builders[i].hooks[h], [], m, Log(st, Enter(i, h)));
      WalkInTrace(env, i, h + 1, m1, st1);
      assert st.trace + [Enter(i, h)] + Enters(env, i, h + 1) == st.trace + ([Enter(i, h)] + Enters(env, i, h + 1));
    }
  }

  lemma {:induction false} WalkOutOnlyLogs<D, S, N>(env: Env<D, S, N>, i: nat, h: nat, st: State<D, S, N>)
    requires i < |env.builders| && h <= |env.builders[i].hooks|
    ensures WalkOut(env, i, h, st) == st.(trace := st.trace + Exits(env, i, h))
    decreases |env.builders[i].hooks| - h
  {
    if h < |env.builders[i].hooks| {
      WalkOutOnlyLogs(env, i, h + 1, st);
      assert st.trace + Exits(env, i, h + 1) + [Exit(i, h)] == st.trace + (Exits(env, i, h + 1) + [Exit(i, h)]);
    } else {
      assert st.trace + Exits(env, i, h) == st.trace;
    }
  }

  // ---------------------------------------------------------------------------
  // The exact run
  // ---------------------------------------------------------------------------

  /** Builders before `i` have their specifications; those from `i` on have not been touched. */
  ghost predicate Ready<D, S, N>(env: Env<D, S, N>, i: nat, st: State<D, S, N>) {
    && Wf(env, st) && i <= |env.builders|
    && (forall j :: 0 <= j < i ==> st.specs[j] == FullSpecs(env)[j])
    && forall j :: i <= j < |env.builders| ==>
         j < |st.store| && st.current[j] == j && st.store[j] == Mut(env.builders[j].data, false)
  }

  function ExpectedOut<D, S, N>(env: Env<D, S, N>, i: nat, calls: nat): Outcome
    requires i <= |env.builders|
  {
    var k := FirstBad(env, i);
    if k < |env.builders| then Failed(CheckFailed(k))
    else match env.batch(calls, FullSpecs(env))
      case Refused(constraint) => Failed(BatchFailed(constraint))
      case Inserted(_) => Ok
  }

  /** The node a builder ends with. */
  function ExpectedNode<D, S, N>(env: Env<D, S, N>, calls: nat, j: nat): Option<N>
    requires j < |env.builders|
  {
    var node := env.node(Final(env, j));
    match env.batch(calls, FullSpecs(env))
    case Refused(_) => Some(node)
    case Inserted(keys) => if keys(j).Some? then Some(env.keyed(node, keys(j).value)) else Some(node)
  }

  /** Everything but the trace after the chain ran from builder `i` in state `st`. */
  ghost predicate Ran<D, S, N>(env: Env<D, S, N>, i: nat, st: State<D, S, N>, r: Result<D, S, N>) {
    && Ready(env, i, st) && Wf(env, r.st) && |st.store| <= |r.st.store|
    && var n, k := |env.builders|, FirstBad(env, i);
    && r.out == ExpectedOut(env, i, st.batches)
    && r.st.batches == st.batches + (if k == n then 1 else 0)
    && (forall j :: 0 <= j < n ==> r.st.specs[j] == if j < k then FullSpecs(env)[j] else st.specs[j])
    && (forall x :: 0 <= x < |st.store| && !(i <= x < n) ==> r.st.store[x] == st.store[x])
    && r.st.current[..i] == st.current[..i]
    && (r.out.Ok? ==>
         && (forall j :: i <= j < n ==> r.st.store[r.st.current[j]] == Mut(Final(env, j), true))
         && (forall j :: i <= j < n ==> r.st.nodes[j] == ExpectedNode(env, st.batches, j))
         && (forall j :: 0 <= j < n ==> r.st.keys[j] == env.batch(st.batches, FullSpecs(env)).keys(j))
         && r.st.nodes[..i] == st.nodes[..i])
    && (r.out.Failed? ==>
         forall x :: 0 <= x < |r.st.store| && r.st.store[x].done ==> x < |st.store| && st.store[x].done)
  }

  /** The events from builder `i` on: its hooks entered, the rest of the chain or the batch, its hooks
      left in reverse. */
  function ExpectedTrace<D, S, N>(env: Env<D, S, N>, i: nat, inserted: bool): seq<Event<S>>
    requires i <= |env.builders|
    decreases |env.builders| - i
  {
    if i == |env.builders| then [Batch(FullSpecs(env), inserted)]
    else Enters(env, i, 0) + (if Accepted(env, i) then ExpectedTrace(env, i + 1, inserted) else []) + Exits(env, i, 0)
  }

  /** The call of the base mutator that leads on: the next builder's mutator, or the batch insert. */
  function Rest<D, S, N>(env: Env<D, S, N>, i: nat, st: State<D, S, N>): (r: Result<D, S, N>)
    requires Wf(env, st) && i <= |env.builders|
    ensures Wf(env, r.st) && |st.store| <= |r.st.store|
  {
    if i < |env.builders| then Mutate(env, i, 0, st.current[i], st) else Insert(env, st)
  }

  lemma InsertRuns<D, S, N>(env: Env<D, S, N>, st: State<D, S, N>)
    requires Ready(env, |env.builders|, st)
    ensures Ran(env, |env.builders|, st, Insert(env, st))
  {
    assert st.specs == FullSpecs(env);
  }

  /** A state reached from `st` by builder `i`'s walk inward, standing at object `m1`. */
  ghost predicate Arrived<D, S, N>(env: Env<D, S, N>, i: nat, st: State<D, S, N>, st1: State<D, S, N>, m1: nat) {
    && Ready(env, i, st) && i < |env.builders|
    && Wf(env, st1) && |st.store| <= |st1.store| && m1 < |st1.store|
    && st1 == st.(store := st1.store, trace := st1.trace)
    && (m1 == i || |st.store| <= m1)
    && st1.store[m1].data == Final(env, i)
    && st1.store[i].data == Own(env, i)
    && (forall x :: 0 <= x < |st.store| && x != i ==> st1.store[x] == st.store[x])
    && !st1.store[i].done
    && (forall x :: |st.store| <= x < |st1.store| ==> !st1.store[x].done)
  }

  lemma Arrives<D, S, N>(env: Env<D, S, N>, i: nat, st: State<D, S, N>)
    requires Ready(env, i, st) && i < |env.builders|
    ensures Arrived(env, i, st, WalkIn(env, i, 0, i, st).0, WalkIn(env, i, 0, i, st).1)
  {
    WalkInStore(env, i, 0, i, st);
    assert env.builders[i].hooks[0..] == env.builders[i].hooks;
  }

  lemma CreateReady<D, S, N>(env: Env<D, S, N>, i: nat, st: State<D, S, N>, st1: State<D, S, N>, m1: nat)
    requires Arrived(env, i, st, st1, m1)
    ensures Ready(env, i + 1, Create(env, i, m1, st1))
  {
  }

  lemma RanRejected<D, S, N>(env: Env<D, S, N>, i: nat, st: State<D, S, N>, st1: State<D, S, N>, m1: nat)
    requires Arrived(env, i, st, st1, m1) && !Accepted(env, i)
    ensures Ran(env, i, st, Base(env, i, m1, st1))
  {
    assert FirstBad(env, i) == i;
  }

  lemma RanFailed<D, S, N>(env: Env<D, S, N>, i: nat, st: State<D, S, N>, st1: State<D, S, N>, m1: nat,
                           r: Result<D, S, N>)
    requires Arrived(env, i, st, st1, m1) && Accepted(env, i)
    requires Ran(env, i + 1, Create(env, i, m1, st1), r) && r.out.Failed?
    ensures Ran(env, i, st, r)
  {
    var st2 := Create(env, i, m1, st1);
    assert FirstBad(env, i) == FirstBad(env, i + 1);
    assert r.st.current[..i] == r.st.current[..i + 1][..i] == st2.current[..i + 1][..i] == st.current[..i];
  }

  lemma RanSettled<D, S, N>(env: Env<D, S, N>, i: nat, st: State<D, S, N>, st1: State<D, S, N>, m1: nat,
                            r: Result<D, S, N>)
    requires Arrived(env, i, st, st1, m1) && Accepted(env, i)
    requires Ran(env, i + 1, Create(env, i, m1, st1), r) && r.out.Ok?
    ensures Ran(env, i, st, Result(Settle(env, i, m1, r.st), Ok))
  {
    var st2 := Create(env, i, m1, st1);
    var st3 := Settle(env, i, m1, r.st);
    var n := |env.builders|;
    assert FirstBad(env, i) == FirstBad(env, i + 1) == n;
    assert r.st.current[..i + 1] == st2.current[..i + 1];
    assert r.st.current[i] == r.st.current[..i + 1][i] == m1;
    assert r.st.current[..i] == r.st.current[..i + 1][..i] == st2.current[..i + 1][..i] == st.current[..i];
    assert r.st.nodes[..i + 1] == st2.nodes[..i + 1];
    assert r.st.nodes[i] == r.st.nodes[..i + 1][i] == Some(env.node(Final(env, i)));
    assert st3.nodes[i] == ExpectedNode(env, st.batches, i);
    assert st3.nodes[..i] == r.st.nodes[..i] == r.st.nodes[..i + 1][..i] == st2.nodes[..i + 1][..i] == st.nodes[..i];
    assert r.st.store[m1] == st1.store[m1];
    forall j | i <= j < n
      ensures st3.store[st3.current[j]] == Mut(Final(env, j), true)
    {
      if j > i {
        assert r.st.store[r.st.current[j]] == Mut(Final(env, j), true);
      }
    }
  }

  /** The base mutator rejects, or goes on and settles. */
  lemma BaseShape<D, S, N>(env: Env<D, S, N>, i: nat, st: State<D, S, N>, st1: State<D, S, N>, m1: nat)
    requires Arrived(env, i, st, st1, m1)
    ensures !Accepted(env, i) ==> Base(env, i, m1, st1) == Result(st1, Failed(CheckFailed(i)))
    ensures Accepted(env, i) ==>
              var r := Rest(env, i + 1, Create(env, i, m1, st1));
              Base(env, i, m1, st1) == if r.out.Failed? then r else Result(Settle(env, i, m1, r.st), Ok)
  {
  }

  lemma BaseRuns<D, S, N>(env: Env<D, S, N>, i: nat, st: State<D, S, N>, st1: State<D, S, N>, m1: nat)
    requires Arrived(env, i, st, st1, m1)
    requires Accepted(env, i) ==>
               Ran(env, i + 1, Create(env, i, m1, st1), Rest(env, i + 1, Create(env, i, m1, st1)))
    ensures Ran(env, i, st, Base(env, i, m1, st1))
  {
    BaseShape(env, i, st, st1, m1);
    if !Accepted(env, i) {
      RanRejected(env, i, st, st1, m1);
    } else {
      var r := Rest(env, i + 1, Create(env, i, m1, st1));
      if r.out.Failed? {
        RanFailed(env, i, st, st1, m1, r);
      } else {
        RanSettled(env, i, st, st1, m1, r);
      }
    }
  }

  /** With straight hooks, the chain from builder `i` runs exactly as expected. */
  lemma {:induction false} ChainRuns<D, S, N>(env: Env<D, S, N>, i: nat, st: State<D, S, N>)
    requires AllStraight(env) && Ready(env, i, st)
    ensures Ran(env, i, st, Rest(env, i, st))
    decreases |env.builders| - i
  {
    if i == |env.builders| {
      InsertRuns(env, st);
    } else {
      var (st1, m1) := WalkIn(env, i, 0, i, st);
      Arrives(env, i, st);
      if Accepted(env, i) {
        CreateReady(env, i, st, st1, m1);
        ChainRuns(env, i + 1, Create(env, i, m1, st1));
      }
      BaseRuns(env, i, st, st1, m1);
      MutateWalks(env, i, 0, i, st);
      var b := Base(env, i, m1, st1);
      WalkOutOnlyLogs(env, i, 0, b.st);
      RanIgnoresTrace(env, i, st, b, WalkOut(env, i, 0, b.st).trace);
    }
  }

  lemma RanIgnoresTrace<D, S, N>(env: Env<D, S, N>, i: nat, st: State<D, S, N>, r: Result<D, S, N>,
                                 trace: seq<Event<S>>)
    requires Ran(env, i, st, r)
    ensures Ran(env, i, st, r.(st := r.st.(trace := trace)))
  {
  }

  lemma Assoc<T>(a: seq<T>, b: seq<T>, c: seq<T>, d: seq<T>)
    ensures a + b + c + d == a + (b + c + d)
  {
  }

  lemma BaseTrace<D, S, N>(env: Env<D, S, N>, i: nat, st: State<D, S, N>, st1: State<D, S, N>, m1: nat,
                           inner: seq<Event<S>>)
    requires Arrived(env, i, st, st1, m1)
    requires Accepted(env, i) ==> Rest(env, i + 1, Create(env, i, m1, st1)).st.trace == st1.trace + inner
    requires !Accepted(env, i) ==> inner == []
    ensures Base(env, i, m1, st1).st.trace == st1.trace + inner
  {
    BaseShape(env, i, st, st1, m1);
    assert inner == [] ==> st1.trace + inner == st1.trace;
  }

  /** The trace of builder `i`'s mutator around the trace of its base mutator. */
  lemma MutateTrace<D, S, N>(env: Env<D, S, N>, i: nat, st: State<D, S, N>, inner: seq<Event<S>>)
    requires AllStraight(env) && Ready(env, i, st) && i < |env.builders|
    requires var (st1, m1) := WalkIn(env, i, 0, i, st);
             Base(env, i, m1, st1).st.trace == st1.trace + inner
    ensures Rest(env, i, st).st.trace == st.trace + (Enters(env, i, 0) + inner + Exits(env, i, 0))
  {
    var (st1, m1) := WalkIn(env, i, 0, i, st);
    WalkInTrace(env, i, 0, i, st);
    MutateWalks(env, i, 0, i, st);
    WalkOutOnlyLogs(env, i, 0, Base(env, i, m1, st1).st);
    Assoc(st.trace, Enters(env, i, 0), inner, Exits(env, i, 0));
  }

  lemma {:induction false} ChainTrace<D, S, N>(env: Env<D, S, N>, i: nat, st: State<D, S, N>)
    requires AllStraight(env) && Ready(env, i, st)
    ensures Rest(env, i, st).st.trace ==
            st.trace + ExpectedTrace(env, i, env.batch(st.batches, FullSpecs(env)).Inserted?)
    decreases |env.builders| - i
  {
    if i == |env.builders| {
      assert st.specs == FullSpecs(env);
    } else {
      var (st1, m1) := WalkIn(env, i, 0, i, st);
      Arrives(env, i, st);
      var inner: seq<Event<S>> := [];
      if Accepted(env, i) {
        CreateReady(env, i, st, st1, m1);
        ChainTrace(env, i + 1, Create(env, i, m1, st1));
        inner := ExpectedTrace(env, i + 1, env.batch(st.batches, FullSpecs(env)).Inserted?);
      }
      BaseTrace(env, i, st, st1, m1, inner);
      MutateTrace(env, i, st, inner);
    }
  }

  // ---------------------------------------------------------------------------
  // Whole runs of Save
  // ---------------------------------------------------------------------------

  lemma InitialReady<D, S, N>(env: Env<D, S, N>)
    ensures Ready(env, 0, Initial(env))
  {
  }

  ghost predicate AllAccepted<D, S, N>(env: Env<D, S, N>) {
    forall i :: 0 <= i < |env.builders| ==> Accepted(env, i)
  }

  ghost predicate AllDone<D, S, N>(env: Env<D, S, N>, st: State<D, S, N>)
    requires Wf(env, st)
  {
    forall i :: 0 <= i < |env.builders| ==> st.store[st.current[i]].done
  }

  ghost predicate NoneDone<D, S, N>(st: State<D, S, N>) {
    forall x :: 0 <= x < |st.store| ==> !st.store[x].done
  }

  /** Bulk create is all-or-nothing: the batch insert is issued exactly once iff the builder list is
      not empty and all checks pass, and otherwise never; the run succeeds iff the list is empty or the
      batch was issued and accepted; on success every builder's mutation is done, on failure no
      mutation object is. */
  lemma AllOrNothing<D, S, N>(env: Env<D, S, N>)
    requires AllStraight(env)
    ensures var r := Save(env);
            && r.st.batches == (if env.builders != [] && AllAccepted(env) then 1 else 0)
            && (r.out.Ok? <==>
                 env.builders == [] || (AllAccepted(env) && env.batch(0, FullSpecs(env)).Inserted?))
            && (r.out.Ok? ==> AllDone(env, r.st))
            && (r.out.Failed? ==> NoneDone(r.st))
  {
    if env.builders != [] {
      InitialReady(env);
      ChainRuns(env, 0, Initial(env));
      assert FirstBad(env, 0) == |env.builders| <==> AllAccepted(env);
    }
  }

  /** When all checks pass, the batch carries for every builder the specification of its final data,
      and on success the returned nodes are those of the final data, with the keys received. */
  lemma SpecsAndNodes<D, S, N>(env: Env<D, S, N>)
    requires AllStraight(env) && env.builders != [] && AllAccepted(env)
    ensures Save(env).st.specs == FullSpecs(env)
    ensures Save(env).out.Ok? ==>
              forall j :: 0 <= j < |env.builders| ==> Save(env).st.nodes[j] == ExpectedNode(env, 0, j)
  {
    InitialReady(env);
    ChainRuns(env, 0, Initial(env));
    assert Save(env) == Rest(env, 0, Initial(env));
  }

  /** The events of the hooks of builders `i` to `k - 1`, inward. */
  function AllEnters<D, S, N>(env: Env<D, S, N>, i: nat, k: nat): seq<Event<S>>
    requires i <= k <= |env.builders|
    decreases k - i
  {
    if i == k then [] else Enters(env, i, 0) + AllEnters(env, i + 1, k)
  }

  function Flip<S>(e: Event<S>): Event<S> {
    match e
    case Enter(i, h) => Exit(i, h)
    case Exit(i, h) => Enter(i, h)
    case Batch(_, _) => e
  }

  /** The mirror image: every entry becomes the matching exit, in reverse order. */
  function Mirror<S>(events: seq<Event<S>>): seq<Event<S>> {
    if events == [] then [] else Mirror(events[1..]) + [Flip(events[0])]
  }

  lemma {:induction false} MirrorConcat<S>(a: seq<Event<S>>, b: seq<Event<S>>)
    ensures Mirror(a + b) == Mirror(b) + Mirror(a)
  {
    if a == [] {
      assert a + b == b;
      assert Mirror(b) + [] == Mirror(b);
    } else {
      assert (a + b)[1..] == a[1..] + b;
      MirrorConcat(a[1..], b);
      assert Mirror(b) + Mirror(a[1..]) + [Flip(a[0])] == Mirror(b) + (Mirror(a[1..]) + [Flip(a[0])]);
    }
  }

  lemma {:induction false} MirrorEnters<D, S, N>(env: Env<D, S, N>, i: nat, h: nat)
    requires i < |env.builders| && h <= |env.builders[i].hooks|
    ensures Mirror(Enters(env, i, h)) == Exits(env, i, h)
    decreases |env.builders[i].hooks| - h
  {
    if h < |env.builders[i].hooks| {
      MirrorEnters(env, i, h + 1);
      assert Enters(env, i, h)[1..] == Enters(env, i, h + 1);
    }
  }

  /** How many builders have their hooks entered. */
  function Walked<D, S, N>(env: Env<D, S, N>, i: nat): nat
    requires i <= |env.builders|
    ensures i <= Walked(env, i) <= |env.builders|
  {
    var k := FirstBad(env, i);
    if k < |env.builders| then k + 1 else k
  }

  function Middle<D, S, N>(env: Env<D, S, N>, i: nat, inserted: bool): seq<Event<S>>
    requires i <= |env.builders|
  {
    if FirstBad(env, i) == |env.builders| then [Batch(FullSpecs(env), inserted)] else []
  }

  lemma Sandwich<T>(e: seq<T>, a: seq<T>, m: seq<T>, b: seq<T>, x: seq<T>)
    ensures e + (a + m + b) + x == (e + a) + m + (b + x)
  {
  }

  /** In, the middle, and the mirror image of the way in. */
  function Palindrome<D, S, N>(env: Env<D, S, N>, i: nat, inserted: bool): seq<Event<S>>
    requires i <= |env.builders|
  {
    var ins: seq<Event<S>> := AllEnters(env, i, Walked(env, i));
    ins + Middle(env, i, inserted) + Mirror(ins)
  }

  lemma PalindromeAccepted<D, S, N>(env: Env<D, S, N>, i: nat, inserted: bool)
    requires i < |env.builders| && Accepted(env, i)
    ensures Palindrome(env, i, inserted) ==
            Enters(env, i, 0) + Palindrome(env, i + 1, inserted) + Exits(env, i, 0)
  {
    var enters: seq<Event<S>> := Enters(env, i, 0);
    var ins: seq<Event<S>> := AllEnters(env, i + 1, Walked(env, i + 1));
    MirrorEnters(env, i, 0);
    MirrorConcat(enters, ins);
    Sandwich(enters, ins, Middle(env, i + 1, inserted), Mirror(ins), Mirror(enters));
  }

  lemma PalindromeRejected<D, S, N>(env: Env<D, S, N>, i: nat, inserted: bool)
    requires i < |env.builders| && !Accepted(env, i)
    ensures Palindrome(env, i, inserted) == Enters(env, i, 0) + [] + Exits(env, i, 0)
  {
    var enters: seq<Event<S>> := Enters(env, i, 0);
    assert AllEnters<D, S, N>(env, i + 1, i + 1) == [];
    assert enters + [] == enters;
    MirrorEnters(env, i, 0);
  }

  lemma {:induction false} TraceMirrors<D, S, N>(env: Env<D, S, N>, i: nat, inserted: bool)
    requires i <= |env.builders|
    ensures ExpectedTrace(env, i, inserted) == Palindrome(env, i, inserted)
    decreases |env.builders| - i
  {
    if i == |env.builders| {
      var batch: seq<Event<S>> := [Batch(FullSpecs(env), inserted)];
      assert [] + batch + [] == batch;
    } else if Accepted(env, i) {
      TraceMirrors(env, i + 1, inserted);
      PalindromeAccepted(env, i, inserted);
    } else {
      PalindromeRejected(env, i, inserted);
    }
  }

  /** Hook runs are properly nested: the trace is the hooks of each builder from index 0 upward,
      builders in order up to the first one whose check fails, one batch call if none fails, and then
      the exits in exact reverse. */
  lemma TraceOfSave<D, S, N>(env: Env<D, S, N>)
    requires AllStraight(env) && env.builders != []
    ensures var ins: seq<Event<S>> := AllEnters(env, 0, Walked(env, 0));
            Save(env).st.trace == ins + Middle(env, 0, env.batch(0, FullSpecs(env)).Inserted?) + Mirror(ins)
  {
    InitialReady(env);
    ChainTrace(env, 0, Initial(env));
    TraceMirrors(env, 0, env.batch(0, FullSpecs(env)).Inserted?);
    assert Save(env) == Rest(env, 0, Initial(env));
  }
}
