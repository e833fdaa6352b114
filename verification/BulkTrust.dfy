/**
 When a reported success of a bulk create can be trusted (`AccountCreateBulk.Save` of
 backend/ent/account_create.go): the exact condition on the hook of a bulk create with one builder and
 one hook, for every check and whatever the database does.
 */
module BulkTrust {
  import opened Text
  import opened Seqs
  import opened BulkChain
  import opened BulkFaithful

  // ---------------------------------------------------------------------------
  // What a hook's results say about the mutations
  // ---------------------------------------------------------------------------

  /** The mutation the hook was given, and the builder's current one where that is another. */
  datatype Track<D> = Track(own: Mut<D>, other: Option<Mut<D>>)

  /** The data that the check looks at in the call after these results. */
  function Checked<D>(hook: Hook<D>, results: seq<Outcome>, t: Track<D>): D {
    if t.other.Some? then t.other.value.data
    else if hook.swaps(results) then t.own.data
    else hook.edit(results, t.own.data)
  }

  predicate BatchOutcome(o: Outcome) {
    o.Ok? || o.error.BatchFailed?
  }

  /** One more call, with outcome `o`: a call that fails its check changes at most the data of the given
      mutation; any other makes the mutation it handed on the current one, and a success makes it done. */
  function Advance<D>(hook: Hook<D>, results: seq<Outcome>, t: Track<D>, o: Outcome): Track<D> {
    var edited := hook.edit(results, t.own.data);
    if hook.swaps(results) then
      if BatchOutcome(o) then Track(t.own, Some(Mut(edited, o == Ok))) else t
    else if BatchOutcome(o) then Track(Mut(edited, t.own.done || o == Ok), None)
    else t.(own := t.own.(data := edited))
  }

  function After<D>(hook: Hook<D>, d: D, results: seq<Outcome>): Track<D> {
    if results == [] then Track(Mut(d, false), None)
    else
      var front := results[..|results| - 1];
      Advance(hook, front, After(hook, d, front), results[|results| - 1])
  }

  /** The builder's current mutation is done. */
  predicate Finished<D>(t: Track<D>) {
    if t.other.Some? then t.other.value.done else t.own.done
  }

  /** A result that the call after `results` can have: a failed check exactly if the check rejects the data it
      looks at, and otherwise an outcome of a batch insert. */
  predicate PlausibleNext<D>(hook: Hook<D>, d: D, check: D -> bool, results: seq<Outcome>, o: Outcome) {
    if check(Checked(hook, results, After(hook, d, results))) then BatchOutcome(o) else o == Failed(CheckFailed(0))
  }

  predicate Plausible<D>(hook: Hook<D>, d: D, check: D -> bool, results: seq<Outcome>) {
    forall k :: 0 <= k < |results| ==> PlausibleNext(hook, d, check, results[..k], results[k])
  }

  /** Wherever the hook stops and answers success, the builder's current mutation is done. */
  ghost predicate TruthfulUnder<D>(hook: Hook<D>, d: D, check: D -> bool) {
    forall results :: Reached(hook, results) && Plausible(hook, d, check, results) && hook.answer(results) == Ok ==>
      Finished(After(hook, d, results))
  }

  lemma AfterSnoc<D>(hook: Hook<D>, d: D, results: seq<Outcome>, o: Outcome)
    ensures After(hook, d, results + [o]) == Advance(hook, results, After(hook, d, results), o)
  {
    assert (results + [o])[..|results|] == results;
  }

  lemma PlausibleSnoc<D>(hook: Hook<D>, d: D, check: D -> bool, results: seq<Outcome>, o: Outcome)
    requires Plausible(hook, d, check, results) && PlausibleNext(hook, d, check, results, o)
    ensures Plausible(hook, d, check, results + [o])
  {
    hide PlausibleNext;
    var more := results + [o];
    forall k | 0 <= k < |more|
      ensures PlausibleNext(hook, d, check, more[..k], more[k])
    {
      if k < |results| {
        assert more[..k] == results[..k];
      } else {
        assert more[..k] == results;
      }
    }
  }

  lemma {:induction false} FinishedNeedsOk<D>(hook: Hook<D>, d: D, results: seq<Outcome>)
    ensures Finished(After(hook, d, results)) || After(hook, d, results).own.done ==> Ok in results
  {
    if results != [] {
      var n := |results| - 1;
      FinishedNeedsOk(hook, d, results[..n]);
      assert results == results[..n] + [results[n]];
    }
  }

  function IsBatch(): Outcome -> bool {
    (o: Outcome) => BatchOutcome(o)
  }

  /** The outcomes of the batch inserts among the results. */
  function Batches(results: seq<Outcome>): seq<Outcome> {
    Filter(IsBatch(), results)
  }

  lemma BatchesSnoc(results: seq<Outcome>, o: Outcome)
    ensures Batches(results + [o]) == Batches(results) + (if BatchOutcome(o) then [o] else [])
  {
    FilterSnoc(IsBatch(), results, o);
  }

  /** A hook that always hands on the mutation it was given leaves it done iff any call succeeded. */
  lemma {:induction false} InPlaceFinished<D>(hook: Hook<D>, d: D, results: seq<Outcome>)
    requires forall rs :: !hook.swaps(rs)
    ensures After(hook, d, results).other.None?
    ensures Finished(After(hook, d, results)) <==> Ok in results
  {
    if results != [] {
      var n := |results| - 1;
      InPlaceFinished(hook, d, results[..n]);
      assert results == results[..n] + [results[n]];
    }
  }

  /** One that always hands on a new mutation leaves the current one done iff the last batch insert was a
      success, whatever checks failed after it. */
  lemma {:induction false} SwappingFinished<D>(hook: Hook<D>, d: D, results: seq<Outcome>)
    requires forall rs :: hook.swaps(rs)
    ensures After(hook, d, results).own == Mut(d, false)
    ensures Finished(After(hook, d, results)) <==> LastOk(Batches(results))
  {
    if results != [] {
      var n := |results| - 1;
      SwappingFinished(hook, d, results[..n]);
      assert results == results[..n] + [results[n]];
      BatchesSnoc(results[..n], results[n]);
    }
  }

  // ---------------------------------------------------------------------------
  // The run
  // ---------------------------------------------------------------------------

  /** One builder with one hook. */
  ghost predicate OneHook<D, S, N>(env: Env<D, S, N>, hook: Hook<D>, d: D, check: D -> bool) {
    env.builders == [Builder(d, [hook])] && env.check == check
  }

  /** The store holds what the track says. */
  ghost predicate Tracks<D, S, N>(t: Track<D>, st: State<D, S, N>) {
    && |st.current| == 1 && st.current[0] < |st.store|
    && st.store[0] == t.own
    && (if t.other.Some? then st.current[0] != 0 && st.store[st.current[0]] == t.other.value else st.current[0] == 0)
  }

  /** The state when the hook has seen these results. */
  ghost predicate Seen<D, S, N>(env: Env<D, S, N>, hook: Hook<D>, d: D, results: seq<Outcome>, st: State<D, S, N>) {
    && Wf(env, st) && |env.builders| == 1 && st.batches == |Batches(results)|
    && Plausible(hook, d, env.check, results)
    && (SomeInsert(st.trace) <==> Ok in results)
    && Tracks(After(hook, d, results), st)
  }

  lemma InsertSnoc<S>(trace: seq<Event<S>>, e: Event<S>)
    ensures SomeInsert(trace + [e]) <==> SomeInsert(trace) || (e.Batch? && e.inserted)
  {
    var more := trace + [e];
    if SomeInsert(more) {
      var k :| 0 <= k < |more| && more[k].Batch? && more[k].inserted;
      if k < |trace| {
        assert trace[k] == more[k];
      }
    }
    if SomeInsert(trace) {
      var k :| 0 <= k < |trace| && trace[k].Batch? && trace[k].inserted;
      assert more[k] == trace[k];
    }
    if e.Batch? && e.inserted {
      assert more[|trace|] == e;
    }
  }

  function Answered(r: BatchResult): Outcome {
    if r.Refused? then Failed(BatchFailed(r.constraint)) else Ok
  }

  /** The outcome is one of the `n`-th batch insert. */
  ghost predicate FromBatch<D, S(!new), N>(env: Env<D, S, N>, n: nat, o: Outcome) {
    exists specs :: o == Answered(env.batch(n, specs))
  }

  /** The base mutator after its check passed: it adopts `m`, inserts, and on success makes it done. */
  lemma BaseInserts<D, S, N>(env: Env<D, S, N>, m: nat, st: State<D, S, N>)
    requires Wf(env, st) && |env.builders| == 1 && m < |st.store| && env.check(st.store[st.current[0]].data)
    ensures var r := Base(env, 0, m, st);
            && r.out == Answered(env.batch(st.batches, Create(env, 0, m, st).specs))
            && BatchOutcome(r.out) && r.st.batches == st.batches + 1
            && r.st.current == [m]
            && r.st.store == st.store[m := Mut(st.store[m].data, st.store[m].done || r.out == Ok)]
            && (SomeInsert(r.st.trace) <==> SomeInsert(st.trace) || r.out == Ok)
  {
    var st1 := Create(env, 0, m, st);
    var r := Insert(env, st1);
    InsertSnoc(st1.trace, Batch(st1.specs, r.out.Ok?));
    hide SomeInsert;
    assert st1.current == [m];
    assert st.store[m := st.store[m]] == st.store;
  }

  /** Handing a mutation on: what the check will look at, and what a failed check leaves. */
  lemma PassTracks<D, S, N>(hook: Hook<D>, results: seq<Outcome>, t: Track<D>, st: State<D, S, N>, o: Outcome)
    requires Tracks(t, st) && !BatchOutcome(o)
    ensures var (st1, m1) := Pass(hook, results, 0, st);
            && st1 == st.(store := st1.store) && |st.store| <= |st1.store| && m1 < |st1.store|
            && st1.store[st1.current[0]].data == Checked(hook, results, t)
            && Tracks(Advance(hook, results, t, o), st1)
  {
  }

  /** What a batch outcome leaves: the mutation handed on is current, and done if it was a success. */
  lemma BatchTracks<D, S, N>(hook: Hook<D>, results: seq<Outcome>, t: Track<D>, st: State<D, S, N>, o: Outcome,
                             st2: State<D, S, N>)
    requires Tracks(t, st) && BatchOutcome(o)
    requires var (st1, m1) := Pass(hook, results, 0, st);
             && st2.current == [m1]
             && st2.store == st1.store[m1 := Mut(st1.store[m1].data, st1.store[m1].done || o == Ok)]
    ensures Tracks(Advance(hook, results, t, o), st2)
  {
  }

  lemma SeenMore<D, S, N>(env: Env<D, S, N>, hook: Hook<D>, d: D, results: seq<Outcome>, o: Outcome, st: State<D, S, N>)
    requires Wf(env, st) && |env.builders| == 1
    requires Plausible(hook, d, env.check, results) && PlausibleNext(hook, d, env.check, results, o)
    requires st.batches == |Batches(results)| + (if BatchOutcome(o) then 1 else 0)
    requires SomeInsert(st.trace) <==> Ok in results || o == Ok
    requires Tracks(Advance(hook, results, After(hook, d, results), o), st)
    ensures Seen(env, hook, d, results + [o], st)
  {
    AfterSnoc(hook, d, results, o);
    PlausibleSnoc(hook, d, env.check, results, o);
    BatchesSnoc(results, o);
    hide SomeInsert, Plausible, After, Batches, Tracks, Advance, PlausibleNext;
  }

  /** One more call: its result is plausible, and the track goes on. */
  lemma OneStep<D, S(!new), N>(env: Env<D, S, N>, hook: Hook<D>, d: D, check: D -> bool, results: seq<Outcome>,
                               st: State<D, S, N>)
    requires OneHook(env, hook, d, check) && Seen(env, hook, d, results, st)
    ensures var (st1, m1) := Pass(hook, results, 0, st);
            var r := Mutate(env, 0, 1, m1, st1);
            && Seen(env, hook, d, results + [r.out], r.st)
            && (BatchOutcome(r.out) ==> FromBatch(env, |Batches(results)|, r.out))
  {
    var t := After(hook, d, results);
    var (st1, m1) := Pass(hook, results, 0, st);
    var r := Base(env, 0, m1, st1);
    assert Mutate(env, 0, 1, m1, st1) == r;
    PassTracks(hook, results, t, st, Failed(CheckFailed(0)));
    if check(Checked(hook, results, t)) {
      BaseInserts(env, m1, st1);
      BatchTracks(hook, results, t, st, r.out, r.st);
      assert FromBatch(env, st.batches, r.out);
    } else {
      assert r == Result(st1, Failed(CheckFailed(0)));
    }
    hide SomeInsert, Plausible, After, Batches, Base, Mutate, Tracks, Advance, FromBatch, Pass;
    SeenMore(env, hook, d, results, r.out, r.st);
  }

  /** The whole run of the hook: the results it stops at. */
  lemma {:induction false} OneRuns<D, S(!new), N>(env: Env<D, S, N>, hook: Hook<D>, d: D, check: D -> bool,
                                                  results: seq<Outcome>, st: State<D, S, N>)
    returns (all: seq<Outcome>)
    requires OneHook(env, hook, d, check) && Seen(env, hook, d, results, st) && Ongoing(hook, results)
    ensures results <= all && Reached(hook, all)
    ensures var r := Calls(env, 0, 0, 0, results, st);
            r.out == hook.answer(all) && Seen(env, hook, d, all, r.st)
    ensures forall k :: |results| <= k < |all| && BatchOutcome(all[k]) ==> FromBatch(env, |Batches(all[..k])|, all[k])
    decreases hook.limit - |results|
  {
    if |results| < hook.limit && hook.again(results) {
      OneStep(env, hook, d, check, results, st);
      var (st1, m1) := Pass(hook, results, 0, st);
      var r := Mutate(env, 0, 1, m1, st1);
      OngoingSnoc(hook, results, r.out);
      hide Seen, Mutate, Ongoing, FromBatch, Batches;
      assert Calls(env, 0, 0, 0, results, st) == Calls(env, 0, 0, 0, results + [r.out], r.st);
      all := OneRuns(env, hook, d, check, results + [r.out], r.st);
      assert all[|results|] == r.out && all[..|results|] == results;
    } else {
      all := results;
    }
  }

  lemma StartSeen<D, S, N>(env: Env<D, S, N>, hook: Hook<D>, d: D)
    requires env.builders == [Builder(d, [hook])]
    ensures Seen(env, hook, d, [], Log(Initial(env), Enter(0, 0)))
  {
    var st := Log(Initial(env), Enter(0, 0));
    assert Batches([]) == [] && Plausible(hook, d, env.check, []);
    assert st.trace == [Enter(0, 0)] && !SomeInsert(st.trace);
    assert Tracks(After(hook, d, []), st);
  }

  lemma TrackFinished<D, S, N>(t: Track<D>, st: State<D, S, N>)
    requires Tracks(t, st)
    ensures Finished(t) <==> st.store[st.current[0]].done
  {
  }

  lemma OneSucceeded<D, S, N>(env: Env<D, S, N>, st: State<D, S, N>)
    requires Wf(env, st) && |env.builders| == 1
    ensures Succeeded(env, 0, st) <==> SomeInsert(st.trace) && st.store[st.current[0]].done
  {
    hide SomeInsert;
  }

  lemma SeenSucceeded<D, S, N>(env: Env<D, S, N>, hook: Hook<D>, d: D, all: seq<Outcome>, st: State<D, S, N>)
    requires Seen(env, hook, d, all, st)
    ensures Succeeded(env, 0, Log(st, Exit(0, 0))) <==> Finished(After(hook, d, all))
  {
    InsertSnoc(st.trace, Exit(0, 0));
    FinishedNeedsOk(hook, d, all);
    TrackFinished(After(hook, d, all), st);
    OneSucceeded(env, Log(st, Exit(0, 0)));
    hide SomeInsert, After, Plausible, Batches, Finished, Tracks, Succeeded;
  }

  /** What a bulk create of one builder with one hook comes to: the hook's answer to plausible results, and a
      success exactly if those results leave the builder's current mutation done. */
  lemma OneSave<D, S(!new), N>(env: Env<D, S, N>, hook: Hook<D>, d: D, check: D -> bool) returns (all: seq<Outcome>)
    requires OneHook(env, hook, d, check)
    ensures Reached(hook, all) && Plausible(hook, d, check, all)
    ensures Save(env).out == hook.answer(all)
    ensures Succeeded(env, 0, Save(env).st) <==> Finished(After(hook, d, all))
    ensures forall k :: 0 <= k < |all| && BatchOutcome(all[k]) ==> FromBatch(env, |Batches(all[..k])|, all[k])
  {
    var st := Log(Initial(env), Enter(0, 0));
    var r := Calls(env, 0, 0, 0, [], st);
    assert Save(env) == r.(st := Log(r.st, Exit(0, 0)));
    StartSeen(env, hook, d);
    hide Save, Calls, Initial, Succeeded, Plausible, Batches, FromBatch, After, SomeInsert;
    all := OneRuns(env, hook, d, check, [], st);
    SeenSucceeded(env, hook, d, all, r.st);
  }

  // ---------------------------------------------------------------------------
  // The database that produces given results
  // ---------------------------------------------------------------------------

  function Script(outcomes: seq<Outcome>, n: nat): BatchResult {
    if n < |outcomes| && outcomes[n].Failed? && outcomes[n].error.BatchFailed?
    then Refused(outcomes[n].error.constraint)
    else Inserted((j: int) => None)
  }

  lemma ScriptAnswers(outcomes: seq<Outcome>, n: nat)
    requires n < |outcomes| && BatchOutcome(outcomes[n])
    ensures Answered(Script(outcomes, n)) == outcomes[n]
  {
  }

  function Scripted<D, S, N>(hooks: seq<Hook<D>>, outcomes: seq<Outcome>, d: D, check: D -> bool, s: S, n: N)
    : Env<D, S, N>
  {
    Env([Builder(d, hooks)], check, (i: nat, x: D) => s, (x: D) => n, (x: N, k: int) => x,
        (k: nat, specs: seq<Option<S>>) => Script(outcomes, k))
  }

  /** A hook stops at only one of two sequences that agree as far as both go. */
  lemma StopsOnce<D>(hook: Hook<D>, a: seq<Outcome>, b: seq<Outcome>)
    requires Reached(hook, a) && Reached(hook, b)
    requires forall k :: 0 <= k < |a| && k < |b| ==> a[k] == b[k]
    ensures a == b
  {
    assert |a| <= |b| ==> b[..|a|] == a;
    assert |b| <= |a| ==> a[..|b|] == b;
  }

  lemma BatchAt(results: seq<Outcome>, k: nat)
    requires k < |results| && BatchOutcome(results[k])
    ensures |Batches(results[..k])| < |Batches(results)|
    ensures Batches(results)[|Batches(results[..k])|] == results[k]
  {
    var front, rest := results[..k], results[k + 1..];
    assert results == front + [results[k]] + rest;
    FilterConcat(IsBatch(), front + [results[k]], rest);
    BatchesSnoc(front, results[k]);
  }

  lemma ScriptNext<D, S(!new), N>(env: Env<D, S, N>, outcomes: seq<Outcome>, n: nat, o: Outcome)
    requires forall m, specs :: env.batch(m, specs) == Script(outcomes, m)
    requires n < |outcomes| && BatchOutcome(outcomes[n]) && FromBatch(env, n, o)
    ensures o == outcomes[n]
  {
    ScriptAnswers(outcomes, n);
  }

  lemma {:induction false} ScriptAgrees<D, S(!new), N>(env: Env<D, S, N>, hook: Hook<D>, d: D, check: D -> bool,
                                                       results: seq<Outcome>, all: seq<Outcome>, k: nat)
    requires Plausible(hook, d, check, results) && Plausible(hook, d, check, all) && k <= |results| && k <= |all|
    requires forall n, specs :: env.batch(n, specs) == Script(Batches(results), n)
    requires forall j :: 0 <= j < |all| && BatchOutcome(all[j]) ==> FromBatch(env, |Batches(all[..j])|, all[j])
    ensures all[..k] == results[..k]
  {
    if k > 0 {
      var j := k - 1;
      ScriptAgrees(env, hook, d, check, results, all, j);
      assert PlausibleNext(hook, d, check, results[..j], results[j]);
      assert PlausibleNext(hook, d, check, all[..j], all[j]);
      hide Plausible, After, Checked, Batches, FromBatch, Script;
      if BatchOutcome(all[j]) {
        BatchAt(results, j);
        ScriptNext(env, Batches(results), |Batches(results[..j])|, all[j]);
      }
      assert all[..k] == all[..j] + [all[j]] && results[..k] == results[..j] + [results[j]];
    }
  }

  lemma ScriptFollowed<D, S(!new), N>(hook: Hook<D>, results: seq<Outcome>, d: D, check: D -> bool, s: S, n: N)
    requires Reached(hook, results) && Plausible(hook, d, check, results)
    ensures var env: Env<D, S, N> := Scripted([hook], Batches(results), d, check, s, n);
            && Save(env).out == hook.answer(results)
            && (Succeeded(env, 0, Save(env).st) <==> Finished(After(hook, d, results)))
  {
    var env: Env<D, S, N> := Scripted([hook], Batches(results), d, check, s, n);
    var all := OneSave(env, hook, d, check);
    hide Save, Succeeded, Finished, Reached, Plausible, FromBatch, Batches;
    var k := if |all| < |results| then |all| else |results|;
    ScriptAgrees(env, hook, d, check, results, all, k);
    forall j | 0 <= j < |all| && j < |results|
      ensures all[j] == results[j]
    {
      assert all[..k][j] == results[..k][j];
    }
    StopsOnce(hook, all, results);
  }

  /** For one builder with one hook and any check, a reported success can be trusted whatever the database does
      exactly when the hook is truthful: wherever it stops and answers success, after results that the check
      and some database can give, the builder's current mutation is done. */
  lemma TruthfulIff<D, S(!new), N>(hook: Hook<D>, d: D, check: D -> bool, s: S, n: N)
    ensures (forall env: Env<D, S, N> :: OneHook(env, hook, d, check) ==> Trusted(env)) <==>
            TruthfulUnder(hook, d, check)
  {
    if TruthfulUnder(hook, d, check) {
      forall env: Env<D, S, N> | OneHook(env, hook, d, check)
        ensures Trusted(env)
      {
        var all := OneSave(env, hook, d, check);
      }
    }
    if forall env: Env<D, S, N> :: OneHook(env, hook, d, check) ==> Trusted(env) {
      forall results | Reached(hook, results) && Plausible(hook, d, check, results) && hook.answer(results) == Ok
        ensures Finished(After(hook, d, results))
      {
        var env: Env<D, S, N> := Scripted([hook], Batches(results), d, check, s, n);
        ScriptFollowed(hook, results, d, check, s, n);
        assert OneHook(env, hook, d, check);
        assert Trusted(env);
      }
    }
  }

  /** The hook that answers success regardless is not truthful under any check that rejects the data. */
  lemma SwallowingUntruthful<D>(d: D, check: D -> bool)
    requires !check(d)
    ensures !TruthfulUnder(Swallowing<D>(), d, check)
  {
    var hook := Swallowing<D>();
    var results := [Failed(CheckFailed(0))];
    assert results[..0] == [];
    assert PlausibleNext(hook, d, check, results[..0], results[0]);
    assert Reached(hook, results) && Plausible(hook, d, check, results);
    assert After(hook, d, results) == Track(Mut(d, false), None);
  }
}
