/**
 Faithful hooks are exactly the hooks that can be trusted in every bulk create, whatever the other
 builders, the other (faithful) hooks, the check and the database are.
 */
module BulkContext {
  import opened BulkChain
  import opened BulkFaithful
  import opened BulkTrust

  // ---------------------------------------------------------------------------
  // A faithful hook that can make its caller see any results
  // ---------------------------------------------------------------------------

  const PRESSED: Outcome := Failed(BatchFailed(true))

  predicate AllPressed(results: seq<Outcome>) {
    forall k :: 0 <= k < |results| ==> results[k] == PRESSED
  }

  /** The number of results says which of the outcomes in `target` to answer; a success is answered only if
      the last result is one. */
  function Decode(target: seq<Outcome>, results: seq<Outcome>): Outcome {
    if results == [] || |results| > |target| then Failed(HookFailed(0))
    else
      var o := target[|results| - 1];
      if o.Failed? || LastOk(results) then o else Failed(HookFailed(0))
  }

  /** A hook that hands on a new mutation each time, calls `next` until it gets something other than a
      constraint failure, and answers what the number of its calls says. */
  function Decoder<D>(target: seq<Outcome>): Hook<D> {
    Hook((results: seq<Outcome>, d: D) => d, (results: seq<Outcome>) => true, |target|,
         (results: seq<Outcome>) => AllPressed(results), (results: seq<Outcome>) => Decode(target, results))
  }

  lemma DecoderFaithful<D>(target: seq<Outcome>)
    ensures Faithful(Decoder<D>(target))
  {
  }

  /** The results that make it answer `target[k]`. */
  function Code(target: seq<Outcome>, k: nat): (code: seq<Outcome>)
    requires k < |target|
    ensures |code| == k + 1
    ensures forall j :: 0 <= j < k ==> code[j] == PRESSED
    ensures code[k] == if target[k].Ok? then Ok else Failed(BatchFailed(false))
  {
    seq(k, j => PRESSED) + [if target[k].Ok? then Ok else Failed(BatchFailed(false))]
  }

  lemma CodeDecodes<D>(target: seq<Outcome>, k: nat)
    requires k < |target|
    ensures Reached(Decoder<D>(target), Code(target, k))
    ensures Decode(target, Code(target, k)) == target[k]
    ensures LastOk(Code(target, k)) <==> target[k].Ok?
  {
    var code := Code(target, k);
    forall j | 0 <= j < |code|
      ensures AllPressed(code[..j])
    {
    }
    assert code[k] != PRESSED;
  }

  /** What the database answers, one call of the decoder after the other. */
  function Codes(target: seq<Outcome>, k: nat): seq<Outcome>
    requires k <= |target|
  {
    if k == 0 then [] else Codes(target, k - 1) + Code(target, k - 1)
  }

  lemma {:induction false} CodesPrefix(target: seq<Outcome>, k: nat, n: nat)
    requires k <= n <= |target|
    ensures Codes(target, k) <= Codes(target, n)
  {
    if k < n {
      CodesPrefix(target, k, n - 1);
    }
  }

  lemma CodeAt(target: seq<Outcome>, k: nat, j: nat)
    requires k < |target| && j <= k
    ensures |Codes(target, k)| + j < |Codes(target, |target|)|
    ensures Codes(target, |target|)[|Codes(target, k)| + j] == Code(target, k)[j]
    ensures BatchOutcome(Code(target, k)[j])
  {
    CodesPrefix(target, k + 1, |target|);
    assert Codes(target, k + 1) == Codes(target, k) + Code(target, k);
    assert Codes(target, k + 1)[|Codes(target, k)| + j] == Code(target, k)[j];
  }

  // ---------------------------------------------------------------------------
  // The run of a hook around the decoder
  // ---------------------------------------------------------------------------

  function Accept<D>(): D -> bool {
    (d: D) => true
  }

  /** One builder with the hook and the decoder, against that database. */
  function Around<D, S, N>(hook: Hook<D>, target: seq<Outcome>, d: D, s: S, n: N): Env<D, S, N> {
    Scripted([hook, Decoder(target)], Codes(target, |target|), d, Accept(), s, n)
  }

  ghost predicate At<D, S, N>(env: Env<D, S, N>, st: State<D, S, N>, batches: nat, done: bool) {
    Wf(env, st) && |env.builders| == 1 && st.batches == batches && st.store[st.current[0]].done == done
  }

  /** One call of the decoder's: the database's next answer comes back, and the new mutation is current. */
  lemma InnerStep<D, S, N>(hook: Hook<D>, target: seq<Outcome>, d: D, s: S, n: N, k: nat, inner: seq<Outcome>, m: nat,
                           st: State<D, S, N>)
    requires k < |target| && |inner| <= k && Wf(Around(hook, target, d, s, n), st) && m < |st.store|
    requires st.batches == |Codes(target, k)| + |inner|
    ensures var env: Env<D, S, N> := Around(hook, target, d, s, n);
            var (st1, m1) := Pass(Decoder(target), inner, m, st);
            var r := Mutate(env, 0, 2, m1, st1);
            && r.out == Code(target, k)[|inner|]
            && At(env, r.st, st.batches + 1, r.out.Ok?)
  {
    var env: Env<D, S, N> := Around(hook, target, d, s, n);
    var (st1, m1) := Pass(Decoder(target), inner, m, st);
    assert Mutate(env, 0, 2, m1, st1) == Base(env, 0, m1, st1);
    BaseInserts(env, m1, st1);
    CodeAt(target, k, |inner|);
    ScriptAnswers(Codes(target, |target|), st.batches);
    hide Codes, Code, Base, Script;
  }

  /** A whole call of the decoder: it answers `target[k]`, and the current mutation is done iff that is a
      success. */
  lemma {:induction false} InnerRuns<D, S, N>(hook: Hook<D>, target: seq<Outcome>, d: D, s: S, n: N, k: nat,
                                              inner: seq<Outcome>, m: nat, st: State<D, S, N>, done: bool)
    requires k < |target| && inner <= Code(target, k) && m < |st.store|
    requires At(Around(hook, target, d, s, n), st, |Codes(target, k)| + |inner|, done)
    requires inner == Code(target, k) ==> done == target[k].Ok?
    ensures var env: Env<D, S, N> := Around(hook, target, d, s, n);
            var r := Calls(env, 0, 1, m, inner, st);
            r.out == target[k] && At(env, r.st, |Codes(target, k + 1)|, target[k].Ok?)
    decreases k + 1 - |inner|
  {
    var env: Env<D, S, N> := Around(hook, target, d, s, n);
    var code := Code(target, k);
    CodeDecodes<D>(target, k);
    assert Codes(target, k + 1) == Codes(target, k) + code;
    if inner != code {
      assert inner == code[..|inner|];
      InnerStep(hook, target, d, s, n, k, inner, m, st);
      var (st1, m1) := Pass(Decoder(target), inner, m, st);
      var r := Mutate(env, 0, 2, m1, st1);
      assert AllPressed(inner);
      hide Mutate, Codes, Code, Decode;
      assert Calls(env, 0, 1, m, inner, st) == Calls(env, 0, 1, m, inner + [r.out], r.st);
      assert code[..|inner| + 1] == inner + [r.out];
      InnerRuns(hook, target, d, s, n, k, inner + [r.out], m, r.st, r.out.Ok?);
    } else {
      hide Codes;
      assert !AllPressed(code) by {
        assert code[k] != PRESSED;
      }
    }
  }

  /** The decoder as the hook's `next`. */
  lemma InnerMutates<D, S, N>(hook: Hook<D>, target: seq<Outcome>, d: D, s: S, n: N, k: nat, m: nat,
                              st: State<D, S, N>, done: bool)
    requires k < |target| && m < |st.store|
    requires At(Around(hook, target, d, s, n), st, |Codes(target, k)|, done)
    ensures var env: Env<D, S, N> := Around(hook, target, d, s, n);
            var r := Mutate(env, 0, 1, m, st);
            r.out == target[k] && At(env, r.st, |Codes(target, k + 1)|, target[k].Ok?)
  {
    var env: Env<D, S, N> := Around(hook, target, d, s, n);
    var st1 := Log(st, Enter(0, 1));
    InnerRuns(hook, target, d, s, n, k, [], m, st1, done);
    hide Codes, Calls;
    assert Mutate(env, 0, 1, m, st) ==
           Calls(env, 0, 1, m, [], st1).(st := Log(Calls(env, 0, 1, m, [], st1).st, Exit(0, 1)));
  }

  /** The hook sees exactly the results in `target`, and ends with the mutation done iff the last is a success. */
  lemma {:induction false} OuterRuns<D, S, N>(hook: Hook<D>, target: seq<Outcome>, d: D, s: S, n: N, k: nat,
                                              st: State<D, S, N>)
    requires Reached(hook, target) && k <= |target| && |st.store| > 0
    requires At(Around(hook, target, d, s, n), st, |Codes(target, k)|, LastOk(target[..k]))
    ensures var env: Env<D, S, N> := Around(hook, target, d, s, n);
            var r := Calls(env, 0, 0, 0, target[..k], st);
            r.out == hook.answer(target) && At(env, r.st, |Codes(target, |target|)|, LastOk(target))
    decreases |target| - k
  {
    var env: Env<D, S, N> := Around(hook, target, d, s, n);
    if k == |target| {
      assert target[..k] == target;
    } else {
      var (st1, m1) := Pass(hook, target[..k], 0, st);
      InnerMutates(hook, target, d, s, n, k, m1, st1, LastOk(target[..k]));
      var r := Mutate(env, 0, 1, m1, st1);
      assert hook.again(target[..k]);
      assert target[..k + 1] == target[..k] + [target[k]];
      hide Mutate, Codes;
      assert Calls(env, 0, 0, 0, target[..k], st) == Calls(env, 0, 0, 0, target[..k] + [r.out], r.st);
      OuterRuns(hook, target, d, s, n, k + 1, r.st);
    }
  }

  /** So a hook that answers success to results whose last is none reports a success that is none. */
  lemma UnfaithfulFails<D, S, N>(hook: Hook<D>, target: seq<Outcome>, d: D, s: S, n: N)
    requires Reached(hook, target) && hook.answer(target) == Ok && !LastOk(target)
    ensures !Trusted<D, S, N>(Around(hook, target, d, s, n))
  {
    var env: Env<D, S, N> := Around(hook, target, d, s, n);
    var st := Log(Initial(env), Enter(0, 0));
    assert target[..0] == [];
    assert Codes(target, 0) == [];
    assert At(env, st, 0, false);
    OuterRuns(hook, target, d, s, n, 0, st);
    var r := Calls(env, 0, 0, 0, [], st);
    hide Calls, Codes;
    assert Save(env) == r.(st := Log(r.st, Exit(0, 0)));
  }

  /** Every hook but `hook` is faithful. */
  ghost predicate FaithfulBeside<D, S, N>(env: Env<D, S, N>, hook: Hook<D>) {
    && env.builders != []
    && forall i, h :: 0 <= i < |env.builders| && 0 <= h < |env.builders[i].hooks| ==>
         env.builders[i].hooks[h] == hook || Faithful(env.builders[i].hooks[h])
  }

  lemma AroundBeside<D, S, N>(hook: Hook<D>, target: seq<Outcome>, d: D, s: S, n: N)
    ensures FaithfulBeside<D, S, N>(Around(hook, target, d, s, n), hook)
  {
    DecoderFaithful<D>(target);
    hide Faithful;
  }

  /** Faithfulness is the weakest condition on a hook: every bulk create in which all other hooks are faithful -
      of any builders, with any check, against any database, with the hook in any place - reports only
      successes that are real, exactly when the hook is faithful itself. */
  lemma FaithfulIff<D, S, N>(hook: Hook<D>, d: D, s: S, n: N)
    ensures (forall env: Env<D, S, N> :: FaithfulBeside(env, hook) ==> Trusted(env)) <==> Faithful(hook)
  {
    if Faithful(hook) {
      forall env: Env<D, S, N> | FaithfulBeside(env, hook)
        ensures Trusted(env)
      {
        SuccessIsReal(env);
      }
    }
    if forall env: Env<D, S, N> :: FaithfulBeside(env, hook) ==> Trusted(env) {
      forall results | Reached(hook, results) && hook.answer(results) == Ok
        ensures LastOk(results)
      {
        if !LastOk(results) {
          AroundBeside<D, S, N>(hook, results, d, s, n);
          UnfaithfulFails<D, S, N>(hook, results, d, s, n);
        }
      }
    }
  }
}
