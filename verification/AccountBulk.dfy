/**
 The bulk chain for accounts: how it relates to creating the accounts one by one
 (`AccountCreate.Save` and `sqlSave`), to reading the stored rows back, and to the guards of
 `AccountUpsertBulk.Exec` (backend/ent/account_create.go, backend/ent/ent.go).
 */
module AccountBulk {
  import opened Text
  import opened AccountEntity
  import opened AccountCreate
  import opened BulkChain
  import opened BulkStraight
  import BulkFaithful

  /** A mutation as its typed setters leave it. */
  type Data = m: Mutation | WellTyped(m) witness Mutation(map[], [], None, [])

  /** The struct `AccountCreate`. */
  datatype AccountBuilder = AccountBuilder(data: Data, hooks: seq<Hook<Data>>, conflict: seq<string>)

  /** The struct `AccountCreateBulk`; `broken` is a non-nil `err`. */
  datatype Bulk = Bulk(broken: bool, builders: seq<AccountBuilder>, conflict: seq<string>)

  /** What the package and the database supply; `order` is the order in which `createSpec` visits
      the columns (`CREATE_COLUMNS`). */
  datatype Setting = Setting(cfg: Config, valid: Validator, order: Order,
                             batch: (nat, seq<Option<Spec>>) -> BatchResult)

  /** The builder's mutation after `defaults`, whose error the bulk path ignores. */
  function Prepared(s: Setting, d: Data): Data {
    DefaultColumns(s.cfg, d);
    Defaults(s.cfg, d).mutation
  }

  function ChainBuilder(s: Setting, b: AccountBuilder): Builder<Data> {
    Builder(Prepared(s, b.data), b.hooks)
  }

  function Checker(s: Setting): Data -> bool {
    d => Check(s.valid, d).None?
  }

  function Speccer(s: Setting, b: Bulk): (nat, Data) -> Spec {
    (i: nat, d: Data) => SpecOf(s.order, d, if i < |b.builders| then b.builders[i].conflict else [])
  }

  function EnvOf(s: Setting, b: Bulk): (env: Env<Data, Spec, Fields>)
    ensures |env.builders| == |b.builders|
    ensures forall i :: 0 <= i < |b.builders| ==> env.builders[i] == ChainBuilder(s, b.builders[i])
    ensures env.check == Checker(s) && env.spec == Speccer(s, b) && env.batch == s.batch
  {
    Env(seq(|b.builders|, i requires 0 <= i < |b.builders| => ChainBuilder(s, b.builders[i])),
        Checker(s), Speccer(s, b), d => NodeOf(s.order, d), (node, id) => WithId(node, id), s.batch)
  }

  // ---------------------------------------------------------------------------
  // Bulk against single creates
  // ---------------------------------------------------------------------------

  /** How far creating one account gets: it is rejected, or it inserts a specification. */
  datatype Single = Rejected | Inserts(spec: Spec)

  /** `withHooks` around `sqlSave`, for hooks that call `next` once: what a hook hands on is copied
      into the builder's mutation before `check` runs. */
  function SingleHooks(s: Setting, conflict: seq<string>, hooks: seq<Hook<Data>>, d: Data): Single
    decreases |hooks|
  {
    if hooks != [] then SingleHooks(s, conflict, hooks[1..], hooks[0].edit([], d))
    else if Check(s.valid, d).Some? then Rejected
    else Inserts(SpecOf(s.order, d, conflict))
  }

  /** `AccountCreate.Save` up to its insert. */
  function SingleCreate(s: Setting, b: AccountBuilder): Single {
    if Defaults(s.cfg, b.data).failed then Rejected
    else SingleHooks(s, b.conflict, b.hooks, Prepared(s, b.data))
  }

  lemma {:induction false} SingleIsFinal(s: Setting, conflict: seq<string>, hooks: seq<Hook<Data>>, d: Data)
    ensures SingleHooks(s, conflict, hooks, d) ==
            var f := FinalData(hooks, d);
            if Check(s.valid, f).Some? then Rejected else Inserts(SpecOf(s.order, f, conflict))
    decreases |hooks|
  {
    if hooks != [] {
      SingleIsFinal(s, conflict, hooks[1..], hooks[0].edit([], d));
    }
  }

  ghost predicate NoSwaps<D>(hooks: seq<Hook<D>>) {
    forall h :: 0 <= h < |hooks| ==> !hooks[h].swaps([])
  }

  lemma {:induction false} OwnIsFinal<D>(hooks: seq<Hook<D>>, d: D)
    requires NoSwaps(hooks)
    ensures OwnData(hooks, d) == FinalData(hooks, d)
    decreases |hooks|
  {
    if hooks != [] {
      OwnIsFinal(hooks[1..], hooks[0].edit([], d));
    }
  }

  // Validators are user code, so acceptance is compared for every validator at once.

  /** What a mutation asks of the validators: nothing will do unless it is `met`, and otherwise they must
      accept every pair in `judged`. */
  datatype Demand = Demand(met: bool, judged: set<(Column, Val)>)

  predicate Meets(valid: Validator, d: Demand) {
    d.met && forall p :: p in d.judged ==> valid(p.0, p.1)
  }

  /** Both demands are hopeless, or neither is and they name the same columns with the same values. */
  predicate SameDemand(x: Demand, y: Demand) {
    x.met == y.met && (x.met ==> x.judged == y.judged)
  }

  function Accepting(judged: set<(Column, Val)>): Validator {
    (c: Column, v: Val) => (c, v) in judged
  }

  /** Two demands are met by the same validators exactly when they are the same. */
  lemma SameDemandIff(x: Demand, y: Demand)
    ensures (forall valid :: Meets(valid, x) <==> Meets(valid, y)) <==> SameDemand(x, y)
  {
    if forall valid :: Meets(valid, x) <==> Meets(valid, y) {
      var vx, vy, both := Accepting(x.judged), Accepting(y.judged), Accepting(x.judged + y.judged);
      assert Meets(both, x) == x.met && Meets(both, y) == y.met;
      if x.met {
        assert Meets(vx, x) && Meets(vy, y);
        assert forall p :: p in y.judged ==> vx(p.0, p.1) && p in x.judged;
        assert forall p :: p in x.judged ==> vy(p.0, p.1) && p in y.judged;
      }
    }
  }

  const VALIDATED: set<Column> := {Name, Platform, Type, Status, SessionWindowStatus}

  /** The thirteen required columns are set. */
  predicate HasRequired(m: Mutation) {
    HasDefaulted(m) && Name in m.fields && Platform in m.fields && Type in m.fields
  }

  /** The validated columns that are set, with their values. */
  function Judged(m: Mutation): set<(Column, Val)> {
    set c | c in VALIDATED && c in m.fields :: (c, m.fields[c])
  }

  /** Two mutations ask the validators about the same things exactly when they agree on the five validated
      columns: set in both with the same value, or in neither. */
  lemma JudgedSameIff(x: Mutation, y: Mutation)
    ensures Judged(x) == Judged(y) <==>
            forall c :: c in VALIDATED ==>
              (c in x.fields <==> c in y.fields) && (c in x.fields && c in y.fields ==> x.fields[c] == y.fields[c])
  {
    if Judged(x) == Judged(y) {
      forall c | c in VALIDATED
        ensures c in x.fields ==> c in y.fields && x.fields[c] == y.fields[c]
        ensures c in y.fields ==> c in x.fields
      {
        if c in x.fields {
          assert (c, x.fields[c]) in Judged(y);
        }
        if c in y.fields {
          assert (c, y.fields[c]) in Judged(x);
        }
      }
    }
  }

  function DemandOf(m: Mutation): Demand {
    Demand(HasRequired(m), Judged(m))
  }

  lemma JudgedValid(valid: Validator, m: Mutation)
    ensures (forall p :: p in Judged(m) ==> valid(p.0, p.1)) <==>
            && ValidIfSet(valid, m, Name) && ValidIfSet(valid, m, Platform) && ValidIfSet(valid, m, Type)
            && ValidIfSet(valid, m, Status) && ValidIfSet(valid, m, SessionWindowStatus)
  {
    forall c | c in VALIDATED && c in m.fields
      ensures (c, m.fields[c]) in Judged(m)
    {
    }
    if forall p :: p in Judged(m) ==> valid(p.0, p.1) {
      assert forall c :: c in VALIDATED && c in m.fields ==> valid((c, m.fields[c]).0, (c, m.fields[c]).1);
    }
  }

  /** `check` passes exactly when the validators meet the mutation's demand. */
  lemma CheckMeets(valid: Validator, m: Mutation)
    ensures Check(valid, m).None? <==> Meets(valid, DemandOf(m))
  {
    CheckIff(valid, m);
    JudgedValid(valid, m);
    hide Check, Judged, HasDefaulted, ValidIfSet;
  }

  /** The demand of the mutation that the bulk path checks. */
  function OwnDemand(s: Setting, x: AccountBuilder): Demand {
    DemandOf(OwnData(x.hooks, Prepared(s, x.data)))
  }

  /** The demand of the one that the single path checks, if its defaults let it get that far. */
  function SingleDemand(s: Setting, x: AccountBuilder): Demand {
    if Defaults(s.cfg, x.data).failed then Demand(false, {})
    else DemandOf(FinalData(x.hooks, Prepared(s, x.data)))
  }

  lemma AcceptedMeets(s: Setting, b: Bulk, i: nat)
    requires i < |b.builders|
    ensures Accepted(EnvOf(s, b), i) <==> Meets(s.valid, OwnDemand(s, b.builders[i]))
  {
    CheckMeets(s.valid, OwnData(b.builders[i].hooks, Prepared(s, b.builders[i].data)));
    hide Check, DemandOf, Prepared;
  }

  lemma InsertsMeets(s: Setting, x: AccountBuilder)
    ensures SingleCreate(s, x).Inserts? <==> Meets(s.valid, SingleDemand(s, x))
    ensures SingleCreate(s, x).Inserts? ==>
              SingleCreate(s, x).spec == SpecOf(s.order, FinalData(x.hooks, Prepared(s, x.data)), x.conflict)
  {
    SingleIsFinal(s, x.conflict, x.hooks, Prepared(s, x.data));
    CheckMeets(s.valid, FinalData(x.hooks, Prepared(s, x.data)));
    hide Check, DemandOf, Prepared;
  }

  lemma OtherValidator(s: Setting, x: AccountBuilder, valid: Validator)
    ensures OwnDemand(s.(valid := valid), x) == OwnDemand(s, x)
    ensures SingleDemand(s.(valid := valid), x) == SingleDemand(s, x)
  {
    assert Prepared(s.(valid := valid), x.data) == Prepared(s, x.data);
    hide Prepared, DemandOf;
  }

  /** The bulk path accepts the builder exactly when the single path would insert it. */
  predicate PathsAgree(s: Setting, b: Bulk, i: nat)
    requires i < |b.builders|
  {
    Accepted(EnvOf(s, b), i) <==> SingleCreate(s, b.builders[i]).Inserts?
  }

  /** One builder: the bulk path and the single path agree for every validator exactly when the mutation the
      one checks and the mutation the other checks both lack a required column, or both have all thirteen
      and the same name, platform, type, status and session-window status. Where `defaults` failed, the
      single path rejects, so the condition is that the checked mutation lacks a required column. Whenever
      the single path inserts, the bulk slot holds the very specification it inserts. */
  lemma BuilderAgrees(s: Setting, b: Bulk, i: nat)
    requires i < |b.builders|
    ensures (forall valid :: PathsAgree(s.(valid := valid), b, i)) <==>
            SameDemand(OwnDemand(s, b.builders[i]), SingleDemand(s, b.builders[i]))
    ensures SingleCreate(s, b.builders[i]).Inserts? ==>
              FullSpecs(EnvOf(s, b))[i] == Some(SingleCreate(s, b.builders[i]).spec)
  {
    hide Meets, SameDemand, OwnDemand, SingleDemand, Accepted, SingleCreate, Prepared, WellTyped;
    var x := b.builders[i];
    var own, single := OwnDemand(s, x), SingleDemand(s, x);
    forall valid: Validator
      ensures PathsAgree(s.(valid := valid), b, i) <==> (Meets(valid, own) <==> Meets(valid, single))
    {
      AcceptedMeets(s.(valid := valid), b, i);
      InsertsMeets(s.(valid := valid), x);
      OtherValidator(s, x, valid);
    }
    SameDemandIff(own, single);
    InsertsMeets(s, x);
  }

  // The same for the whole list of builders.

  function Together(ds: seq<Demand>): Demand {
    if ds == [] then Demand(true, {})
    else
      var rest := Together(ds[1..]);
      Demand(ds[0].met && rest.met, ds[0].judged + rest.judged)
  }

  lemma {:induction false} MeetsTogether(valid: Validator, ds: seq<Demand>)
    ensures Meets(valid, Together(ds)) <==> forall i :: 0 <= i < |ds| ==> Meets(valid, ds[i])
  {
    if ds != [] {
      MeetsTogether(valid, ds[1..]);
      assert forall i :: 0 < i < |ds| ==> ds[i] == ds[1..][i - 1];
      var rest := Together(ds[1..]);
      assert Meets(valid, Together(ds)) <==> Meets(valid, ds[0]) && Meets(valid, rest);
    }
  }

  function OwnDemands(s: Setting, b: Bulk): (ds: seq<Demand>)
    ensures |ds| == |b.builders| && forall i :: 0 <= i < |ds| ==> ds[i] == OwnDemand(s, b.builders[i])
  {
    seq(|b.builders|, i requires 0 <= i < |b.builders| => OwnDemand(s, b.builders[i]))
  }

  function SingleDemands(s: Setting, b: Bulk): (ds: seq<Demand>)
    ensures |ds| == |b.builders| && forall i :: 0 <= i < |ds| ==> ds[i] == SingleDemand(s, b.builders[i])
  {
    seq(|b.builders|, i requires 0 <= i < |b.builders| => SingleDemand(s, b.builders[i]))
  }

  predicate Issued(s: Setting, b: Bulk) {
    Save(EnvOf(s, b)).st.batches == 1
  }

  predicate AllInsert(s: Setting, b: Bulk) {
    forall i :: 0 <= i < |b.builders| ==> SingleCreate(s, b.builders[i]).Inserts?
  }

  /** What the bulk create and the loop of single creates ask of the validators is the same. */
  predicate SameDemands(s: Setting, b: Bulk) {
    SameDemand(Together(OwnDemands(s, b)), Together(SingleDemands(s, b)))
  }

  lemma StraightAnyValidator(s: Setting, b: Bulk, valid: Validator)
    requires AllStraight(EnvOf(s, b))
    ensures AllStraight(EnvOf(s.(valid := valid), b))
  {
    forall i | 0 <= i < |b.builders|
      ensures EnvOf(s.(valid := valid), b).builders[i].hooks == EnvOf(s, b).builders[i].hooks
    {
    }
  }

  lemma IssuedMeets(s: Setting, b: Bulk)
    requires AllStraight(EnvOf(s, b)) && b.builders != []
    ensures Issued(s, b) <==> Meets(s.valid, Together(OwnDemands(s, b)))
    ensures Issued(s, b) <==> AllAccepted(EnvOf(s, b))
  {
    hide Accepted, OwnDemand, Meets, Together, Save, EnvOf, AllStraight, WellTyped;
    var env := EnvOf(s, b);
    AllOrNothing(env);
    forall i | 0 <= i < |b.builders|
      ensures Accepted(env, i) <==> Meets(s.valid, OwnDemands(s, b)[i])
    {
      AcceptedMeets(s, b, i);
    }
    MeetsTogether(s.valid, OwnDemands(s, b));
  }

  lemma AllInsertMeets(s: Setting, b: Bulk)
    ensures AllInsert(s, b) <==> Meets(s.valid, Together(SingleDemands(s, b)))
  {
    forall i | 0 <= i < |b.builders|
      ensures SingleCreate(s, b.builders[i]).Inserts? <==> Meets(s.valid, SingleDemands(s, b)[i])
    {
      InsertsMeets(s, b.builders[i]);
    }
    MeetsTogether(s.valid, SingleDemands(s, b));
    hide SingleCreate, SingleDemand, Meets, Together;
  }

  lemma DemandsAnyValidator(s: Setting, b: Bulk, valid: Validator)
    ensures OwnDemands(s.(valid := valid), b) == OwnDemands(s, b)
    ensures SingleDemands(s.(valid := valid), b) == SingleDemands(s, b)
  {
    forall i | 0 <= i < |b.builders|
      ensures OwnDemand(s.(valid := valid), b.builders[i]) == OwnDemand(s, b.builders[i])
      ensures SingleDemand(s.(valid := valid), b.builders[i]) == SingleDemand(s, b.builders[i])
    {
      OtherValidator(s, b.builders[i], valid);
    }
    hide OwnDemand, SingleDemand;
  }

  lemma SlotsAreSingles(s: Setting, b: Bulk)
    requires AllStraight(EnvOf(s, b)) && b.builders != [] && Issued(s, b)
    ensures forall i :: 0 <= i < |b.builders| && SingleCreate(s, b.builders[i]).Inserts? ==>
              Save(EnvOf(s, b)).st.specs[i] == Some(SingleCreate(s, b.builders[i]).spec)
  {
    IssuedMeets(s, b);
    SpecsAndNodes(EnvOf(s, b));
    forall i | 0 <= i < |b.builders| && SingleCreate(s, b.builders[i]).Inserts?
      ensures FullSpecs(EnvOf(s, b))[i] == Some(SingleCreate(s, b.builders[i]).spec)
    {
      BuilderAgrees(s, b, i);
    }
    hide Issued, SingleCreate, Save;
  }

  /** Bulk refines a loop of single creates, and exactly when: with hooks that call `next` once, the batch is
      issued iff every single create would insert, for every validator, exactly when the two ask the same of
      the validators. And whenever the batch is issued, the slot of every builder that the single path would
      insert is the specification it would insert. */
  lemma BulkRefinesSingles(s: Setting, b: Bulk)
    requires AllStraight(EnvOf(s, b)) && b.builders != []
    ensures (forall valid :: Issued(s.(valid := valid), b) <==> AllInsert(s.(valid := valid), b)) <==> SameDemands(s, b)
    ensures SameDemands(s, b) ==> (Issued(s, b) <==> AllInsert(s, b))
    ensures Issued(s, b) ==>
              forall i :: 0 <= i < |b.builders| && SingleCreate(s, b.builders[i]).Inserts? ==>
                Save(EnvOf(s, b)).st.specs[i] == Some(SingleCreate(s, b.builders[i]).spec)
  {
    var own, single := Together(OwnDemands(s, b)), Together(SingleDemands(s, b));
    forall valid: Validator
      ensures Issued(s.(valid := valid), b) <==> Meets(valid, own)
      ensures AllInsert(s.(valid := valid), b) <==> Meets(valid, single)
    {
      StraightAnyValidator(s, b, valid);
      IssuedMeets(s.(valid := valid), b);
      AllInsertMeets(s.(valid := valid), b);
      DemandsAnyValidator(s, b, valid);
    }
    SameDemandIff(own, single);
    assert s.(valid := s.valid) == s;
    if Issued(s, b) {
      SlotsAreSingles(s, b);
    }
    hide Issued, AllInsert, Meets, SameDemand, Together, SingleCreate, Save;
  }

  /** Hooks that hand on the mutation they were given; and none at all where `defaults` failed. */
  ghost predicate Tame(s: Setting, x: AccountBuilder) {
    NoSwaps(x.hooks) && (Defaults(s.cfg, x.data).failed ==> x.hooks == [])
  }

  lemma TameAgrees(s: Setting, x: AccountBuilder)
    requires Tame(s, x)
    ensures SameDemand(OwnDemand(s, x), SingleDemand(s, x))
  {
    if Defaults(s.cfg, x.data).failed {
      DefaultColumns(s.cfg, x.data);
    } else {
      OwnIsFinal(x.hooks, Prepared(s, x.data));
    }
  }

  lemma {:induction false} TogetherSame(xs: seq<Demand>, ys: seq<Demand>)
    requires |xs| == |ys| && forall i :: 0 <= i < |xs| ==> SameDemand(xs[i], ys[i])
    ensures SameDemand(Together(xs), Together(ys))
  {
    if xs != [] {
      TogetherSame(xs[1..], ys[1..]);
    }
  }

  /** If all builders are tame, bulk refines the loop of single creates. */
  lemma TameBulkAgrees(s: Setting, b: Bulk)
    requires forall i :: 0 <= i < |b.builders| ==> Tame(s, b.builders[i])
    ensures SameDemands(s, b)
  {
    forall i | 0 <= i < |b.builders|
      ensures SameDemand(OwnDemand(s, b.builders[i]), SingleDemand(s, b.builders[i]))
    {
      TameAgrees(s, b.builders[i]);
    }
    hide SameDemand, OwnDemand, SingleDemand;
    TogetherSame(OwnDemands(s, b), SingleDemands(s, b));
  }

  // ---------------------------------------------------------------------------
  // Where bulk and single differ
  // ---------------------------------------------------------------------------

  const EMPTY: Data := Mutation(map[], [], None, [])

  // A mutation with the thirteen required columns, in three parts.

  const STAMPS: map<Column, Val> :=
    map[CreatedAt := VTime(1), UpdatedAt := VTime(1), Credentials := VJson(None), Extra := VJson(None)]

  const NUMBERS: map<Column, Val> :=
    map[Concurrency := VInt(3), Priority := VInt(50), RateMultiplier := VFloat(1.0), AutoPauseOnExpired := VBool(true),
        Schedulable := VBool(true)]

  const NAMES: map<Column, Val> :=
    map[Status := VStr("active"), Name := VStr("main"), Platform := VStr("openai"), Type := VStr("oauth")]

  predicate TypedFields(fields: map<Column, Val>) {
    forall c :: c in fields ==> Settable(c) && ValKind(fields[c]) == ScanKind(c)
  }

  lemma StampsTyped()
    ensures TypedFields(STAMPS)
  {
  }

  lemma NumbersTyped()
    ensures TypedFields(NUMBERS)
  {
  }

  lemma NamesTyped()
    ensures TypedFields(NAMES)
  {
  }

  function Full(): (d: Data)
    ensures d.fields == STAMPS + NUMBERS + NAMES
  {
    StampsTyped();
    NumbersTyped();
    NamesTyped();
    hide STAMPS, NUMBERS, NAMES, Settable, ScanKind, ValKind;
    Mutation(STAMPS + NUMBERS + NAMES, [], None, [])
  }

  /** A hook that calls `next` once with `d`, in a new mutation or written into the one it was given. */
  function Passing(d: Data, swaps: bool): Hook<Data> {
    Hook((results: seq<Outcome>, x: Data) => d, (results: seq<Outcome>) => swaps, 1, (results: seq<Outcome>) => true,
         (results: seq<Outcome>) => if results == [] then Ok else results[0])
  }

  function OneBuilder(d: Data, hook: Hook<Data>): Bulk {
    Bulk(false, [AccountBuilder(d, [hook], [])], [])
  }

  ghost predicate Inserting(s: Setting) {
    forall specs :: s.batch(0, specs).Inserted?
  }

  lemma OneStraight(s: Setting, d: Data, to: Data, swaps: bool)
    ensures AllStraight(EnvOf(s, OneBuilder(d, Passing(to, swaps))))
  {
    assert Straight(Passing(to, swaps));
  }

  lemma OnePassing(s: Setting, d: Data, to: Data, swaps: bool)
    ensures var x := OneBuilder(d, Passing(to, swaps)).builders[0];
            && FinalData(x.hooks, Prepared(s, d)) == to
            && OwnData(x.hooks, Prepared(s, d)) == if swaps then Prepared(s, d) else to
  {
    var hook := Passing(to, swaps);
    assert [hook][1..] == [];
    hide Prepared;
    assert FinalData([hook], Prepared(s, d)) == FinalData([], hook.edit([], Prepared(s, d)));
  }

  lemma EmptyFails(valid: Validator)
    ensures Check(valid, EMPTY).Some?
  {
    CheckIff(valid, EMPTY);
    assert Name !in EMPTY.fields;
  }

  lemma OneSaved(s: Setting, b: Bulk)
    requires |b.builders| == 1 && AllStraight(EnvOf(s, b)) && Accepted(EnvOf(s, b), 0) && Inserting(s)
    ensures Save(EnvOf(s, b)).out.Ok?
  {
    hide Accepted, Save, AllStraight, WellTyped, FullSpecs, EnvOf;
    AllOrNothing(EnvOf(s, b));
  }

  lemma FullAfterDefaults(s: Setting, full: Data)
    requires HasRequired(full) && Check(s.valid, full).None?
    ensures Check(s.valid, Prepared(s, full)).None?
  {
    CheckIff(s.valid, full);
    DefaultColumns(s.cfg, full);
    CheckAfterDefaults(s.cfg, s.valid, full);
    hide Check, ValidIfSet;
  }

  /** The bulk path checks a builder's old mutation and inserts the one its hooks handed on: for every setting
      and every complete, valid mutation, one hook that hands on an empty one gets it inserted, although
      creating that account alone is rejected. */
  lemma SwapBypassesCheck(s: Setting, full: Data)
    requires HasRequired(full) && Check(s.valid, full).None? && Inserting(s)
    ensures var b := OneBuilder(full, Passing(EMPTY, true));
            && Save(EnvOf(s, b)).out.Ok?
            && SingleCreate(s, b.builders[0]).Rejected?
            && Check(s.valid, Final(EnvOf(s, b), 0)).Some?
  {
    var b := OneBuilder(full, Passing(EMPTY, true));
    OneStraight(s, full, EMPTY, true);
    OnePassing(s, full, EMPTY, true);
    FullAfterDefaults(s, full);
    EmptyFails(s.valid);
    SingleIsFinal(s, [], b.builders[0].hooks, Prepared(s, full));
    hide Prepared, Check, Passing, FinalData, OwnData;
    assert Accepted(EnvOf(s, b), 0);
    OneSaved(s, b);
  }

  /** The bulk path drops the error of `defaults`: with a default that was never initialised, one hook that
      writes the missing columns into the mutation it was given gets it inserted, although creating that
      account alone is rejected before any hook runs. */
  lemma DroppedDefaultsError(s: Setting, full: Data)
    requires s.cfg.createdAt.None? && HasRequired(full) && Check(s.valid, full).None? && Inserting(s)
    ensures var b := OneBuilder(EMPTY, Passing(full, false));
            && Save(EnvOf(s, b)).out.Ok?
            && SingleCreate(s, b.builders[0]).Rejected?
            && NoSwaps(b.builders[0].hooks)
  {
    var b := OneBuilder(EMPTY, Passing(full, false));
    OneStraight(s, EMPTY, full, false);
    OnePassing(s, EMPTY, full, false);
    NilDefault(s.cfg);
    hide Prepared, Check, FinalData, OwnData;
    assert Accepted(EnvOf(s, b), 0);
    OneSaved(s, b);
  }

  lemma NilDefault(cfg: Config)
    requires cfg.createdAt.None?
    ensures Defaults(cfg, EMPTY).failed
  {
    assert DefaultSteps(cfg)[0] == (CreatedAt, None);
  }

  /** For every setting: a bulk create of one empty account, whose only hook answers success regardless,
      succeeds although the check fails and nothing is inserted. */
  lemma SwallowedError(s: Setting)
    ensures var b := OneBuilder(EMPTY, BulkFaithful.Swallowing());
            Save(EnvOf(s, b)).out.Ok? && Save(EnvOf(s, b)).st.batches == 0
  {
    var b := OneBuilder(EMPTY, BulkFaithful.Swallowing());
    DefaultColumns(s.cfg, EMPTY);
    CheckIff(s.valid, Prepared(s, EMPTY));
    assert Name in [Name, Platform, Type, SessionWindowStatus];
    assert EnvOf(s, b).builders == [ChainBuilder(s, b.builders[0])];
    hide Check, Save;
    BulkFaithful.SwallowedCheck(EnvOf(s, b), Prepared(s, EMPTY));
  }

  /** A setting in which both happen: no default for `created_at`, validators that accept everything, and a
      database that inserts. */
  function Lenient(): Setting {
    Setting(Config(None, None, None, None, 3, 50, 1.0, "active", true, true), (c: Column, v: Val) => true,
            CREATE_COLUMNS,
            (n: nat, specs: seq<Option<Spec>>) => Inserted((j: int) => Some(1)))
  }

  lemma FullHasDefaulted()
    ensures HasDefaulted(Full())
  {
    assert Status in NAMES;
  }

  lemma LenientAccepts(m: Mutation)
    ensures Check(Lenient().valid, m).None? <==> HasRequired(m)
  {
    CheckIff(Lenient().valid, m);
    hide Check, HasDefaulted;
  }

  lemma FullIsComplete()
    ensures HasRequired(Full()) && Check(Lenient().valid, Full()).None?
  {
    FullHasDefaulted();
    LenientAccepts(Full());
    hide HasDefaulted, Lenient, Check;
    assert Name in NAMES && Platform in NAMES && Type in NAMES;
  }

  /** The two inputs, concretely. */
  lemma BypassExamples()
    ensures var b := OneBuilder(Full(), Passing(EMPTY, true));
            Save(EnvOf(Lenient(), b)).out.Ok? && SingleCreate(Lenient(), b.builders[0]).Rejected?
    ensures var b := OneBuilder(EMPTY, Passing(Full(), false));
            Save(EnvOf(Lenient(), b)).out.Ok? && SingleCreate(Lenient(), b.builders[0]).Rejected?
  {
    FullIsComplete();
    hide Full, EMPTY, Check, HasRequired, Save, SingleCreate;
    SwapBypassesCheck(Lenient(), Full());
    DroppedDefaultsError(Lenient(), Full());
  }

  // ---------------------------------------------------------------------------
  // Bulk create, then read back
  // ---------------------------------------------------------------------------

  /** After a successful bulk create with hooks that call `next` once, reading back the row stored for any builder
      that received a key gives exactly the fields of the node returned for it. */
  lemma BulkReadBack(s: Setting, b: Bulk, codec: Codec, i: nat, columns: seq<Column>)
    requires AllStraight(EnvOf(s, b)) && i < |b.builders| && Save(EnvOf(s, b)).out.Ok? && RoundTrips(codec)
    requires s.batch(0, FullSpecs(EnvOf(s, b))).Inserted? && s.batch(0, FullSpecs(EnvOf(s, b))).keys(i).Some?
    requires var key := s.batch(0, FullSpecs(EnvOf(s, b))).keys(i).value;
             forall c: Column ::
               !c.Other? && !StoredCell(codec, FullSpecs(EnvOf(s, b))[i].value, key, c).NULL? ==> c in columns
    ensures var r := Save(EnvOf(s, b)).st;
            var key := s.batch(0, FullSpecs(EnvOf(s, b))).keys(i).value;
            var read := ReadRow(codec, columns, StoredRow(codec, FullSpecs(EnvOf(s, b))[i].value, key));
            read.error.None? && r.nodes[i] == Some(read.fields.(selectValues := map[]))
  {
    var env := EnvOf(s, b);
    AllOrNothing(env);
    SpecsAndNodes(env);
    ReadBack(codec, s.order, Final(env, i), b.builders[i].conflict, s.batch(0, FullSpecs(env)).keys(i).value, columns);
  }

  // ---------------------------------------------------------------------------
  // AccountUpsertBulk
  // ---------------------------------------------------------------------------

  /** Why an upsert did not start, or how its bulk create ended. */
  datatype Upserted =
    | BulkError | BuilderConflict(index: nat) | MissingOptions | Saved(result: Result<Data, Spec, Fields>)

  /** `AccountCreateBulk.Exec`. */
  function BulkExec(s: Setting, b: Bulk): Upserted {
    if b.broken then BulkError else Saved(Save(EnvOf(s, b)))
  }

  predicate GuardsPass(b: Bulk) {
    && !b.broken && b.conflict != []
    && forall i :: 0 <= i < |b.builders| ==> b.builders[i].conflict == []
  }

  predicate NoConflicts(bs: seq<AccountBuilder>) {
    forall j :: 0 <= j < |bs| ==> bs[j].conflict == []
  }

  function FirstConflict(bs: seq<AccountBuilder>, i: nat): (k: nat)
    requires i <= |bs| && exists j :: i <= j < |bs| && bs[j].conflict != []
    ensures i <= k < |bs| && bs[k].conflict != []
    ensures forall j :: i <= j < k ==> bs[j].conflict == []
    decreases |bs| - i
  {
    if bs[i].conflict != [] then i else FirstConflict(bs, i + 1)
  }

  /** What `Exec` answers: the first guard that fails, in order, or the bulk create. */
  function Upsert(s: Setting, b: Bulk): (r: Upserted)
    ensures r.Saved? <==> GuardsPass(b)
  {
    if b.broken then BulkError
    else if !NoConflicts(b.builders) then BuilderConflict(FirstConflict(b.builders, 0))
    else if b.conflict == [] then MissingOptions
    else BulkExec(s, b)
  }

  method UpsertExec(s: Setting, b: Bulk) returns (r: Upserted)
    ensures r == Upsert(s, b)
  {
    if b.broken {
      return BulkError;
    }
    for i := 0 to |b.builders|
      invariant forall j :: 0 <= j < i ==> b.builders[j].conflict == []
    {
      if b.builders[i].conflict != [] {
        return BuilderConflict(i);
      }
    }
    if b.conflict == [] {
      return MissingOptions;
    }
    r := BulkExec(s, b);
  }

  /** When the guards pass and the hooks are straight, no specification the batch carries has conflict
      options of its own. */
  lemma GuardedSpecsPlain(s: Setting, b: Bulk)
    requires GuardsPass(b) && b.builders != [] && AllStraight(EnvOf(s, b)) && AllAccepted(EnvOf(s, b))
    ensures Upsert(s, b).Saved?
    ensures forall i :: 0 <= i < |b.builders| ==>
              Upsert(s, b).result.st.specs[i].Some? && Upsert(s, b).result.st.specs[i].value.onConflict == []
  {
    SpecsAndNodes(EnvOf(s, b));
  }

  /** `ExecX` is documented to be like `Exec` except for its panic, but it calls the bulk create directly,
      without the guards. */
  function UpsertX(s: Setting, b: Bulk): Upserted {
    BulkExec(s, b)
  }

  /** For every setting: upserting one account without conflict options is refused by `Exec`, while `ExecX` goes
      on to the bulk create. */
  lemma ExecXSkipsGuards(s: Setting)
    ensures var b := Bulk(false, [AccountBuilder(Full(), [], [])], []);
            Upsert(s, b) == MissingOptions && UpsertX(s, b) == Saved(Save(EnvOf(s, b)))
  {
    hide Save, Full;
  }

  /** The two agree exactly when the guards pass, or the bulk builder was broken to begin with. */
  lemma ExecXAgreesIff(s: Setting, b: Bulk)
    ensures UpsertX(s, b) == Upsert(s, b) <==> GuardsPass(b) || b.broken
  {
  }
}
