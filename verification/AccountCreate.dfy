/**
 Building one account (backend/ent/account_create.go): `defaults`, `check` and `createSpec`, and the
 agreement between the entity a create returns and the row it stores.
 */
module AccountCreate {
  import opened Text
  import opened AccountEntity

  /** The accessors of `AccountMutation`: the columns that were set, and the edges that were added. */
  datatype Mutation = Mutation(fields: map<Column, Val>, groups: seq<int>, proxy: Option<int>, usageLogs: seq<int>)

  /** Every column but the key and the foreign key, in the order `createSpec` visits them. */
  const SETTABLE_COLUMNS: seq<Column> := [
    CreatedAt, UpdatedAt, DeletedAt, Name, Notes, Platform, Type, Credentials, Extra, Concurrency, LoadFactor,
    Priority, RateMultiplier, Status, ErrorMessage, LastUsedAt, ExpiresAt, AutoPauseOnExpired, Schedulable,
    RateLimitedAt, RateLimitResetAt, OverloadUntil, TempUnschedulableUntil, TempUnschedulableReason,
    SessionWindowStart, SessionWindowEnd, SessionWindowStatus]

  /** A column of the account's own: not the key, which the database chooses, nor the foreign key, which is an
      edge. */
  predicate Settable(c: Column) {
    c != ID && c != ProxyID && !c.Other?
  }

  /** A list that visits every such column, and no other key. */
  ghost predicate VisitsAll(order: seq<Column>) {
    ID !in order && ProxyID !in order && forall c :: Settable(c) ==> c in order
  }

  type Order = o: seq<Column> | VisitsAll(o) witness SETTABLE_COLUMNS

  const CREATE_COLUMNS: Order := SETTABLE_COLUMNS

  /** There are setters for the account's own columns only, and they are typed: each column holds a value of its
      type. */
  predicate WellTyped(m: Mutation) {
    forall c :: c in m.fields ==> Settable(c) && ValKind(m.fields[c]) == ScanKind(c)
  }

  // ---------------------------------------------------------------------------
  // defaults
  // ---------------------------------------------------------------------------

  /** The package variables of defaults; `None` is a default function that was never initialised. */
  datatype Config = Config(
    createdAt: Option<Time>, updatedAt: Option<Time>, credentials: Option<GoMap>, extra: Option<GoMap>,
    concurrency: int, priority: int, rateMultiplier: real, status: string,
    autoPauseOnExpired: bool, schedulable: bool)

  function Boxed<T>(o: Option<T>, box: T -> Val): Option<Val> {
    if o.None? then None else Some(box(o.value))
  }

  /** The columns that have a default, in order, with the default. */
  function DefaultSteps(cfg: Config): seq<(Column, Option<Val>)> {
    [(CreatedAt, Boxed(cfg.createdAt, t => VTime(t))),
     (UpdatedAt, Boxed(cfg.updatedAt, t => VTime(t))),
     (Credentials, Boxed(cfg.credentials, m => VJson(m))),
     (Extra, Boxed(cfg.extra, m => VJson(m))),
     (Concurrency, Some(VInt(cfg.concurrency))),
     (Priority, Some(VInt(cfg.priority))),
     (RateMultiplier, Some(VFloat(cfg.rateMultiplier))),
     (Status, Some(VStr(cfg.status))),
     (AutoPauseOnExpired, Some(VBool(cfg.autoPauseOnExpired))),
     (Schedulable, Some(VBool(cfg.schedulable)))]
  }

  /** The mutation as `defaults` leaves it, and whether it returned an error. */
  datatype Defaulted = Defaulted(mutation: Mutation, failed: bool)

  function ApplyDefaults(m: Mutation, steps: seq<(Column, Option<Val>)>): Defaulted
    decreases |steps|
  {
    if steps == [] then Defaulted(m, false)
    else
      var (c, v) := steps[0];
      if c in m.fields then ApplyDefaults(m, steps[1..])
      else if v.None? then Defaulted(m, true)
      else ApplyDefaults(m.(fields := m.fields[c := v.value]), steps[1..])
  }

  function Defaults(cfg: Config, m: Mutation): Defaulted {
    ApplyDefaults(m, DefaultSteps(cfg))
  }

  ghost predicate StepsTyped(steps: seq<(Column, Option<Val>)>) {
    forall i :: 0 <= i < |steps| && steps[i].1.Some? ==>
      Settable(steps[i].0) && ValKind(steps[i].1.value) == ScanKind(steps[i].0)
  }

  lemma DefaultTyped(m: Mutation, c: Column, v: Val)
    requires WellTyped(m) && Settable(c) && ValKind(v) == ScanKind(c)
    ensures WellTyped(m.(fields := m.fields[c := v]))
  {
  }

  lemma StepsTail(steps: seq<(Column, Option<Val>)>)
    requires StepsTyped(steps) && steps != []
    ensures StepsTyped(steps[1..])
    ensures steps[0].1.Some? ==> Settable(steps[0].0) && ValKind(steps[0].1.value) == ScanKind(steps[0].0)
  {
    assert forall i :: 0 < i < |steps| ==> steps[i] == steps[1..][i - 1];
  }

  /** Defaults never touch a column that was set; on success every column with a default is set; an
      error leaves some column with a default unset. */
  lemma {:induction false} DefaultsFill(m: Mutation, steps: seq<(Column, Option<Val>)>)
    requires StepsTyped(steps) && WellTyped(m)
    ensures var r := ApplyDefaults(m, steps);
            && WellTyped(r.mutation)
            && m.fields.Keys <= r.mutation.fields.Keys
            && (forall c :: c in m.fields ==> r.mutation.fields[c] == m.fields[c])
            && (forall c :: c in r.mutation.fields && c !in m.fields ==>
                  exists i :: 0 <= i < |steps| && steps[i] == (c, Some(r.mutation.fields[c])))
            && (r.failed <==> exists i :: 0 <= i < |steps| && steps[i].0 !in r.mutation.fields)
            && r.mutation == m.(fields := r.mutation.fields)
    decreases |steps|
  {
    hide WellTyped, StepsTyped, Settable, ScanKind, ValKind;
    if steps != [] {
      var (c, v) := steps[0];
      var rest := steps[1..];
      assert forall i :: 0 < i < |steps| ==> steps[i] == rest[i - 1];
      StepsTail(steps);
      if v.Some? {
        DefaultTyped(m, c, v.value);
      }
      if c in m.fields {
        DefaultsFill(m, rest);
      } else if v.Some? {
        DefaultsFill(m.(fields := m.fields[c := v.value]), rest);
      }
      var r := ApplyDefaults(m, steps);
      if c in m.fields || v.Some? {
        assert c in r.mutation.fields;
        forall d | d in r.mutation.fields && d !in m.fields
          ensures exists i :: 0 <= i < |steps| && steps[i] == (d, Some(r.mutation.fields[d]))
        {
          if d == c {
            assert steps[0] == (d, Some(r.mutation.fields[d]));
          } else {
            var i :| 0 <= i < |rest| && rest[i] == (d, Some(r.mutation.fields[d]));
            assert steps[i + 1] == rest[i];
          }
        }
        if i :| 0 <= i < |rest| && rest[i].0 !in r.mutation.fields {
          assert steps[i + 1] == rest[i];
        }
      } else {
        assert steps[0].0 !in r.mutation.fields;
      }
    }
  }

  // ---------------------------------------------------------------------------
  // check
  // ---------------------------------------------------------------------------

  /** A column that must be set, that must pass its validator when set, or both. */
  datatype Rule = Rule(column: Column, required: bool, validated: bool)

  const CHECK_RULES: seq<Rule> := [
    Rule(CreatedAt, true, false), Rule(UpdatedAt, true, false), Rule(Name, true, true),
    Rule(Platform, true, true), Rule(Type, true, true), Rule(Credentials, true, false),
    Rule(Extra, true, false), Rule(Concurrency, true, false), Rule(Priority, true, false),
    Rule(RateMultiplier, true, false), Rule(Status, true, true), Rule(AutoPauseOnExpired, true, false),
    Rule(Schedulable, true, false), Rule(SessionWindowStatus, false, true)]

  /** The user-defined validators, by column. */
  type Validator = (Column, Val) -> bool

  predicate Satisfies(valid: Validator, m: Mutation, r: Rule) {
    if r.column in m.fields then r.validated ==> valid(r.column, m.fields[r.column]) else !r.required
  }

  function FirstViolation(valid: Validator, m: Mutation, rules: seq<Rule>): Option<Column> {
    if rules == [] then None
    else if Satisfies(valid, m, rules[0]) then FirstViolation(valid, m, rules[1..])
    else Some(rules[0].column)
  }

  /** `check`: the column of the `ValidationError`, or `None`. */
  function Check(valid: Validator, m: Mutation): Option<Column> {
    FirstViolation(valid, m, CHECK_RULES)
  }

  lemma {:induction false} ViolationIff(valid: Validator, m: Mutation, rules: seq<Rule>)
    ensures FirstViolation(valid, m, rules).None? <==>
            forall i :: 0 <= i < |rules| ==> Satisfies(valid, m, rules[i])
  {
    if rules != [] {
      ViolationIff(valid, m, rules[1..]);
      assert forall i :: 0 < i < |rules| ==> rules[i] == rules[1..][i - 1];
    }
  }

  /** The columns that have a default. */
  predicate HasDefaulted(m: Mutation) {
    && CreatedAt in m.fields && UpdatedAt in m.fields && Credentials in m.fields && Extra in m.fields
    && Concurrency in m.fields && Priority in m.fields && RateMultiplier in m.fields && Status in m.fields
    && AutoPauseOnExpired in m.fields && Schedulable in m.fields
  }

  predicate ValidIfSet(valid: Validator, m: Mutation, c: Column) {
    c in m.fields ==> valid(c, m.fields[c])
  }

  /** `check` passes exactly when the thirteen required columns are set and the five validated ones,
      where set, are valid. */
  lemma CheckIff(valid: Validator, m: Mutation)
    ensures Check(valid, m).None? <==>
            && HasDefaulted(m) && Name in m.fields && Platform in m.fields && Type in m.fields
            && ValidIfSet(valid, m, Name) && ValidIfSet(valid, m, Platform) && ValidIfSet(valid, m, Type)
            && ValidIfSet(valid, m, Status) && ValidIfSet(valid, m, SessionWindowStatus)
  {
    ViolationIff(valid, m, CHECK_RULES);
    if Check(valid, m).None? {
      assert Satisfies(valid, m, CHECK_RULES[0]) && Satisfies(valid, m, CHECK_RULES[1]);
      assert Satisfies(valid, m, CHECK_RULES[2]) && Satisfies(valid, m, CHECK_RULES[3]);
      assert Satisfies(valid, m, CHECK_RULES[4]) && Satisfies(valid, m, CHECK_RULES[5]);
      assert Satisfies(valid, m, CHECK_RULES[6]) && Satisfies(valid, m, CHECK_RULES[7]);
      assert Satisfies(valid, m, CHECK_RULES[8]) && Satisfies(valid, m, CHECK_RULES[9]);
      assert Satisfies(valid, m, CHECK_RULES[10]) && Satisfies(valid, m, CHECK_RULES[11]);
      assert Satisfies(valid, m, CHECK_RULES[12]) && Satisfies(valid, m, CHECK_RULES[13]);
    }
  }

  /** Which column `check` reports, in the order in which it looks. */
  lemma CheckReports(valid: Validator, m: Mutation)
    ensures Check(valid, m) ==
            if CreatedAt !in m.fields then Some(CreatedAt)
            else if UpdatedAt !in m.fields then Some(UpdatedAt)
            else if Name !in m.fields || !valid(Name, m.fields[Name]) then Some(Name)
            else if Platform !in m.fields || !valid(Platform, m.fields[Platform]) then Some(Platform)
            else if Type !in m.fields || !valid(Type, m.fields[Type]) then Some(Type)
            else if Credentials !in m.fields then Some(Credentials)
            else if Extra !in m.fields then Some(Extra)
            else if Concurrency !in m.fields then Some(Concurrency)
            else if Priority !in m.fields then Some(Priority)
            else if RateMultiplier !in m.fields then Some(RateMultiplier)
            else if Status !in m.fields || !valid(Status, m.fields[Status]) then Some(Status)
            else if AutoPauseOnExpired !in m.fields then Some(AutoPauseOnExpired)
            else if Schedulable !in m.fields then Some(Schedulable)
            else if SessionWindowStatus in m.fields && !valid(SessionWindowStatus, m.fields[SessionWindowStatus])
            then Some(SessionWindowStatus)
            else None
  {
    RuleStep(valid, m, 0, Rule(CreatedAt, true, false));
    RuleStep(valid, m, 1, Rule(UpdatedAt, true, false));
    RuleStep(valid, m, 2, Rule(Name, true, true));
    RuleStep(valid, m, 3, Rule(Platform, true, true));
    RuleStep(valid, m, 4, Rule(Type, true, true));
    RuleStep(valid, m, 5, Rule(Credentials, true, false));
    RuleStep(valid, m, 6, Rule(Extra, true, false));
    hide RulesFrom;
    AllRules(valid, m);
    LastRules(valid, m);
  }

  lemma LastRules(valid: Validator, m: Mutation)
    ensures RulesFrom(valid, m, 7) ==
            if Concurrency !in m.fields then Some(Concurrency)
            else if Priority !in m.fields then Some(Priority)
            else if RateMultiplier !in m.fields then Some(RateMultiplier)
            else if Status !in m.fields || !valid(Status, m.fields[Status]) then Some(Status)
            else if AutoPauseOnExpired !in m.fields then Some(AutoPauseOnExpired)
            else if Schedulable !in m.fields then Some(Schedulable)
            else if SessionWindowStatus in m.fields && !valid(SessionWindowStatus, m.fields[SessionWindowStatus])
            then Some(SessionWindowStatus)
            else None
  {
    RuleStep(valid, m, 7, Rule(Concurrency, true, false));
    RuleStep(valid, m, 8, Rule(Priority, true, false));
    RuleStep(valid, m, 9, Rule(RateMultiplier, true, false));
    RuleStep(valid, m, 10, Rule(Status, true, true));
    RuleStep(valid, m, 11, Rule(AutoPauseOnExpired, true, false));
    RuleStep(valid, m, 12, Rule(Schedulable, true, false));
    RuleStep(valid, m, 13, Rule(SessionWindowStatus, false, true));
    hide RulesFrom;
    AllRules(valid, m);
  }

  function RulesFrom(valid: Validator, m: Mutation, k: nat): Option<Column>
    requires k <= |CHECK_RULES|
  {
    FirstViolation(valid, m, CHECK_RULES[k..])
  }

  lemma AllRules(valid: Validator, m: Mutation)
    ensures |CHECK_RULES| == 14 && Check(valid, m) == RulesFrom(valid, m, 0) && RulesFrom(valid, m, 14) == None
  {
    assert CHECK_RULES[0..] == CHECK_RULES && CHECK_RULES[14..] == [];
  }

  lemma RuleStep(valid: Validator, m: Mutation, k: nat, r: Rule)
    requires k < |CHECK_RULES| && CHECK_RULES[k] == r
    ensures RulesFrom(valid, m, k) ==
            if r.column in m.fields && r.validated && !valid(r.column, m.fields[r.column]) then Some(r.column)
            else if r.column !in m.fields && r.required then Some(r.column)
            else RulesFrom(valid, m, k + 1)
  {
    assert CHECK_RULES[k..][1..] == CHECK_RULES[k + 1..];
    hide CHECK_RULES;
  }

  // ---------------------------------------------------------------------------
  // defaults, then check
  // ---------------------------------------------------------------------------

  lemma DefaultStepsTyped(cfg: Config)
    ensures StepsTyped(DefaultSteps(cfg))
  {
  }

  lemma AllStepsSet(cfg: Config, m: Mutation)
    ensures (forall i :: 0 <= i < |DefaultSteps(cfg)| ==> DefaultSteps(cfg)[i].0 in m.fields) <==> HasDefaulted(m)
  {
    var steps := DefaultSteps(cfg);
    if forall i :: 0 <= i < |steps| ==> steps[i].0 in m.fields {
      assert steps[0].0 in m.fields && steps[1].0 in m.fields && steps[2].0 in m.fields && steps[3].0 in m.fields;
      assert steps[4].0 in m.fields && steps[5].0 in m.fields && steps[6].0 in m.fields && steps[7].0 in m.fields;
      assert steps[8].0 in m.fields && steps[9].0 in m.fields;
    }
  }

  lemma StatusStep(cfg: Config, i: nat)
    requires i < |DefaultSteps(cfg)|
    ensures DefaultSteps(cfg)[i].0 == Status ==> DefaultSteps(cfg)[i].1 == Some(VStr(cfg.status))
    ensures DefaultSteps(cfg)[i].0 !in [Name, Platform, Type, SessionWindowStatus]
  {
  }

  /** The column was set by `defaults`, to this value. */
  predicate SetTo(before: Mutation, after: Mutation, c: Column, v: Val) {
    c in after.fields && c !in before.fields ==> after.fields[c] == v
  }

  /** The ten defaults: a column that was not set and that `defaults` reached holds the configuration's value for
      that very column; no other column is added. */
  lemma DefaultValues(cfg: Config, m: Mutation)
    requires WellTyped(m)
    ensures var after := Defaults(cfg, m).mutation;
            && (CreatedAt in after.fields && CreatedAt !in m.fields ==>
                 cfg.createdAt.Some? && after.fields[CreatedAt] == VTime(cfg.createdAt.value))
            && (UpdatedAt in after.fields && UpdatedAt !in m.fields ==>
                 cfg.updatedAt.Some? && after.fields[UpdatedAt] == VTime(cfg.updatedAt.value))
            && (Credentials in after.fields && Credentials !in m.fields ==>
                 cfg.credentials.Some? && after.fields[Credentials] == VJson(cfg.credentials.value))
            && (Extra in after.fields && Extra !in m.fields ==>
                 cfg.extra.Some? && after.fields[Extra] == VJson(cfg.extra.value))
            && SetTo(m, after, Concurrency, VInt(cfg.concurrency))
            && SetTo(m, after, Priority, VInt(cfg.priority))
            && SetTo(m, after, RateMultiplier, VFloat(cfg.rateMultiplier))
            && SetTo(m, after, Status, VStr(cfg.status))
            && SetTo(m, after, AutoPauseOnExpired, VBool(cfg.autoPauseOnExpired))
            && SetTo(m, after, Schedulable, VBool(cfg.schedulable))
    ensures forall c :: c in Defaults(cfg, m).mutation.fields && c !in m.fields ==>
              c in {CreatedAt, UpdatedAt, Credentials, Extra, Concurrency, Priority, RateMultiplier, Status,
                    AutoPauseOnExpired, Schedulable}
  {
    hide ApplyDefaults, DefaultSteps, WellTyped, DefaultIs;
    forall c | c in Defaults(cfg, m).mutation.fields && c !in m.fields
      ensures DefaultIs(cfg, c, Defaults(cfg, m).mutation.fields[c])
    {
      SetByDefaults(cfg, m, c);
    }
    DefaultsMean(cfg, m, Defaults(cfg, m).mutation);
  }

  lemma DefaultsMean(cfg: Config, m: Mutation, after: Mutation)
    requires forall c :: c in after.fields && c !in m.fields ==> DefaultIs(cfg, c, after.fields[c])
    ensures (CreatedAt in after.fields && CreatedAt !in m.fields ==>
              cfg.createdAt.Some? && after.fields[CreatedAt] == VTime(cfg.createdAt.value))
    ensures (UpdatedAt in after.fields && UpdatedAt !in m.fields ==>
              cfg.updatedAt.Some? && after.fields[UpdatedAt] == VTime(cfg.updatedAt.value))
    ensures (Credentials in after.fields && Credentials !in m.fields ==>
              cfg.credentials.Some? && after.fields[Credentials] == VJson(cfg.credentials.value))
    ensures (Extra in after.fields && Extra !in m.fields ==>
              cfg.extra.Some? && after.fields[Extra] == VJson(cfg.extra.value))
    ensures SetTo(m, after, Concurrency, VInt(cfg.concurrency)) && SetTo(m, after, Priority, VInt(cfg.priority))
    ensures SetTo(m, after, RateMultiplier, VFloat(cfg.rateMultiplier)) && SetTo(m, after, Status, VStr(cfg.status))
    ensures SetTo(m, after, AutoPauseOnExpired, VBool(cfg.autoPauseOnExpired))
    ensures SetTo(m, after, Schedulable, VBool(cfg.schedulable))
    ensures forall c :: c in after.fields && c !in m.fields ==>
              c in {CreatedAt, UpdatedAt, Credentials, Extra, Concurrency, Priority, RateMultiplier, Status,
                    AutoPauseOnExpired, Schedulable}
  {
  }

  lemma SetByDefaults(cfg: Config, m: Mutation, c: Column)
    requires WellTyped(m) && c in Defaults(cfg, m).mutation.fields && c !in m.fields
    ensures DefaultIs(cfg, c, Defaults(cfg, m).mutation.fields[c])
  {
    var steps := DefaultSteps(cfg);
    var after := ApplyDefaults(m, steps).mutation;
    DefaultStepsTyped(cfg);
    DefaultsFill(m, steps);
    hide ApplyDefaults, DefaultSteps, WellTyped, DefaultIs;
    var i :| 0 <= i < |steps| && steps[i] == (c, Some(after.fields[c]));
    StepIs(cfg, i);
  }

  /** The configuration's value for a column. */
  predicate DefaultIs(cfg: Config, c: Column, v: Val) {
    match c
    case CreatedAt => cfg.createdAt.Some? && v == VTime(cfg.createdAt.value)
    case UpdatedAt => cfg.updatedAt.Some? && v == VTime(cfg.updatedAt.value)
    case Credentials => cfg.credentials.Some? && v == VJson(cfg.credentials.value)
    case Extra => cfg.extra.Some? && v == VJson(cfg.extra.value)
    case Concurrency => v == VInt(cfg.concurrency)
    case Priority => v == VInt(cfg.priority)
    case RateMultiplier => v == VFloat(cfg.rateMultiplier)
    case Status => v == VStr(cfg.status)
    case AutoPauseOnExpired => v == VBool(cfg.autoPauseOnExpired)
    case Schedulable => v == VBool(cfg.schedulable)
    case _ => false
  }

  lemma StepIs(cfg: Config, i: nat)
    requires i < |DefaultSteps(cfg)|
    ensures DefaultSteps(cfg)[i].1.Some? ==> DefaultIs(cfg, DefaultSteps(cfg)[i].0, DefaultSteps(cfg)[i].1.value)
  {
  }

  /** `defaults` fails exactly when one of the four default functions is needed and was never initialised; and
      then the columns after it are not reached. */
  lemma DefaultsFailIff(cfg: Config, m: Mutation)
    requires WellTyped(m)
    ensures Defaults(cfg, m).failed <==>
            || (CreatedAt !in m.fields && cfg.createdAt.None?)
            || (UpdatedAt !in m.fields && cfg.updatedAt.None?)
            || (Credentials !in m.fields && cfg.credentials.None?)
            || (Extra !in m.fields && cfg.extra.None?)
    ensures !Defaults(cfg, m).failed ==> HasDefaulted(Defaults(cfg, m).mutation)
  {
    DefaultColumns(cfg, m);
    DefaultValues(cfg, m);
    StoppedAtNil(m, DefaultSteps(cfg));
    hide ApplyDefaults;
    if Defaults(cfg, m).failed {
      var i :| 0 <= i < |DefaultSteps(cfg)| && DefaultSteps(cfg)[i].0 !in m.fields && DefaultSteps(cfg)[i].1.None?;
    }
  }

  lemma {:induction false} StoppedAtNil(m: Mutation, steps: seq<(Column, Option<Val>)>)
    ensures ApplyDefaults(m, steps).failed ==>
              exists i :: 0 <= i < |steps| && steps[i].0 !in m.fields && steps[i].1.None?
    decreases |steps|
  {
    if ApplyDefaults(m, steps).failed {
      var (c, v) := steps[0];
      if c !in m.fields && v.None? {
        assert steps[0].0 !in m.fields && steps[0].1.None?;
      } else {
        var next := if c in m.fields then m else m.(fields := m.fields[c := v.value]);
        StoppedAtNil(next, steps[1..]);
        var i :| 0 <= i < |steps[1..]| && steps[1..][i].0 !in next.fields && steps[1..][i].1.None?;
        assert steps[i + 1] == steps[1..][i];
      }
    }
  }

  lemma DefaultColumns(cfg: Config, m: Mutation)
    requires WellTyped(m)
    ensures WellTyped(Defaults(cfg, m).mutation)
    ensures Defaults(cfg, m).failed <==> !HasDefaulted(Defaults(cfg, m).mutation)
    ensures forall c :: c in m.fields ==>
              c in Defaults(cfg, m).mutation.fields && Defaults(cfg, m).mutation.fields[c] == m.fields[c]
    ensures forall c :: c in [Name, Platform, Type, SessionWindowStatus] ==>
              (c in Defaults(cfg, m).mutation.fields <==> c in m.fields)
    ensures Status in Defaults(cfg, m).mutation.fields && Status !in m.fields ==>
              Defaults(cfg, m).mutation.fields[Status] == VStr(cfg.status)
  {
    var steps := DefaultSteps(cfg);
    var r := ApplyDefaults(m, steps);
    DefaultStepsTyped(cfg);
    DefaultsFill(m, steps);
    AllStepsSet(cfg, r.mutation);
    forall c | c in r.mutation.fields && c !in m.fields
      ensures c !in [Name, Platform, Type, SessionWindowStatus]
      ensures c == Status ==> r.mutation.fields[c] == VStr(cfg.status)
    {
      var i :| 0 <= i < |steps| && steps[i] == (c, Some(r.mutation.fields[c]));
      StatusStep(cfg, i);
    }
  }

  /** Whenever `defaults` fails, `check` fails too on the mutation it leaves. So the bulk path, which drops the
      error of `defaults`, still rejects the account - unless a hook fills the columns in before `check` runs. */
  lemma FailedDefaultsFailCheck(cfg: Config, valid: Validator, m: Mutation)
    requires WellTyped(m) && Defaults(cfg, m).failed
    ensures Check(valid, Defaults(cfg, m).mutation).Some?
  {
    DefaultColumns(cfg, m);
    CheckIff(valid, Defaults(cfg, m).mutation);
  }

  /** After successful defaults the caller still owes exactly a valid name, platform and type, a valid
      status (given or default) and a valid session-window status if one was given. */
  lemma CheckAfterDefaults(cfg: Config, valid: Validator, m: Mutation)
    requires WellTyped(m) && !Defaults(cfg, m).failed
    ensures Check(valid, Defaults(cfg, m).mutation).None? <==>
            && Name in m.fields && Platform in m.fields && Type in m.fields
            && ValidIfSet(valid, m, Name) && ValidIfSet(valid, m, Platform) && ValidIfSet(valid, m, Type)
            && valid(Status, if Status in m.fields then m.fields[Status] else VStr(cfg.status))
            && ValidIfSet(valid, m, SessionWindowStatus)
  {
    hide ApplyDefaults, DefaultSteps, Check, WellTyped;
    DefaultColumns(cfg, m);
    CheckIff(valid, Defaults(cfg, m).mutation);
  }

  // ---------------------------------------------------------------------------
  // createSpec
  // ---------------------------------------------------------------------------

  datatype Rel = M2M | M2O | O2M

  datatype EdgeSpec = EdgeSpec(rel: Rel, targets: seq<int>)

  /** The specification handed to the driver. */
  datatype Spec = Spec(fields: seq<(Column, Val)>, edges: seq<EdgeSpec>, onConflict: seq<string>)

  /** `_spec.SetField` for each column that was set, in order. */
  function SpecFields(m: Mutation, columns: seq<Column>): seq<(Column, Val)> {
    if columns == [] then []
    else
      var c := columns[0];
      (if c in m.fields then [(c, m.fields[c])] else []) + SpecFields(m, columns[1..])
  }

  /** `_node.Field = value` for each column that was set, in order. */
  function NodeFields(a: Fields, m: Mutation, columns: seq<Column>): Fields
    requires WellTyped(m)
    decreases |columns|
  {
    if columns == [] then a
    else
      var c := columns[0];
      NodeFields(if c in m.fields then Put(a, c, m.fields[c]) else a, m, columns[1..])
  }

  function SpecEdges(m: Mutation): seq<EdgeSpec> {
    (if m.groups != [] then [EdgeSpec(M2M, m.groups)] else []) +
    (if m.proxy.Some? then [EdgeSpec(M2O, [m.proxy.value])] else []) +
    (if m.usageLogs != [] then [EdgeSpec(O2M, m.usageLogs)] else [])
  }

  /** The specification, for the list `order` of columns visited. */
  function SpecOf(order: seq<Column>, m: Mutation, conflict: seq<string>): Spec {
    Spec(SpecFields(m, order), SpecEdges(m), conflict)
  }

  /** The node returned beside it, with its key still zero. */
  function NodeOf(order: seq<Column>, m: Mutation): Fields
    requires WellTyped(m)
  {
    var node := NodeFields(ZERO, m, order);
    if m.proxy.Some? then Put(node, ProxyID, VInt(m.proxy.value)) else node
  }

  function WithId(node: Fields, id: int): Fields {
    Put(node, ID, VInt(id))
  }

  // ---------------------------------------------------------------------------
  // Create and read-back
  // ---------------------------------------------------------------------------

  function Encode(codec: Codec, v: Val): Cell {
    match v
    case VInt(i) => CInt(i)
    case VTime(t) => CTime(t)
    case VStr(s) => CStr(s)
    case VFloat(f) => CFloat(f)
    case VBool(b) => CBool(b)
    case VJson(m) => CBytes(codec.marshal(m))
  }

  function FieldValue(fields: seq<(Column, Val)>, c: Column): Option<Val> {
    if fields == [] then None
    else if fields[0].0 == c then Some(fields[0].1)
    else FieldValue(fields[1..], c)
  }

  /** The target of the many-to-one edge, which the driver stores in the foreign-key column. */
  function ForeignKey(edges: seq<EdgeSpec>): Option<int> {
    if edges == [] then None
    else if edges[0].rel == M2O && edges[0].targets != [] then Some(edges[0].targets[0])
    else ForeignKey(edges[1..])
  }

  function StoredCell(codec: Codec, spec: Spec, id: int, c: Column): Cell {
    if c == ID then CInt(id)
    else if c == ProxyID then
      if ForeignKey(spec.edges).Some? then CInt(ForeignKey(spec.edges).value) else NULL
    else match FieldValue(spec.fields, c)
      case None => NULL
      case Some(v) => Encode(codec, v)
  }

  /** The row a specification describes, once the database has chosen the key. */
  function StoredRow(codec: Codec, spec: Spec, id: int): Row {
    c => StoredCell(codec, spec, id, c)
  }

  lemma {:induction false} SpecFieldsLookup(m: Mutation, columns: seq<Column>, d: Column)
    ensures FieldValue(SpecFields(m, columns), d) ==
            if d in columns && d in m.fields then Some(m.fields[d]) else None
  {
    if columns != [] {
      SpecFieldsLookup(m, columns[1..], d);
      assert columns == [columns[0]] + columns[1..];
      var rest := SpecFields(m, columns[1..]);
      if columns[0] in m.fields {
        assert SpecFields(m, columns)[1..] == rest;
      } else {
        assert SpecFields(m, columns) == rest;
      }
    }
  }

  lemma {:induction false} NodeFieldsGet(a: Fields, m: Mutation, columns: seq<Column>, d: Column)
    requires WellTyped(m)
    ensures Get(NodeFields(a, m, columns), d) ==
            if d in columns && d in m.fields then Some(m.fields[d]) else Get(a, d)
    ensures NodeFields(a, m, columns).selectValues == a.selectValues
    decreases |columns|
  {
    if columns != [] {
      var c := columns[0];
      assert columns == [c] + columns[1..];
      if c in m.fields {
        PutGet(a, c, m.fields[c], d);
        NodeFieldsGet(Put(a, c, m.fields[c]), m, columns[1..], d);
      } else {
        NodeFieldsGet(a, m, columns[1..], d);
      }
    }
  }

  lemma EdgeTarget(m: Mutation)
    ensures ForeignKey(SpecEdges(m)) == m.proxy
  {
    var g := if m.groups != [] then [EdgeSpec(M2M, m.groups)] else [];
    var p := if m.proxy.Some? then [EdgeSpec(M2O, [m.proxy.value])] else [];
    var u := if m.usageLogs != [] then [EdgeSpec(O2M, m.usageLogs)] else [];
    assert SpecEdges(m) == g + p + u;
    SkipEdge(g, p + u);
    assert g + (p + u) == g + p + u;
    if m.proxy.None? {
      assert p + u == u;
      SkipEdge(u, []);
      assert u + [] == u;
    }
  }

  lemma SkipEdge(front: seq<EdgeSpec>, rest: seq<EdgeSpec>)
    requires |front| <= 1
    requires front != [] ==> front[0].rel != M2O
    ensures ForeignKey(front + rest) == ForeignKey(rest)
  {
    if front == [] {
      assert front + rest == rest;
    } else {
      assert (front + rest)[1..] == rest;
    }
  }

  lemma EncodeVal(codec: Codec, c: Column, v: Val)
    requires RoundTrips(codec) && ValKind(v) == ScanKind(c)
    ensures !c.Other?
    ensures CellOk(codec, c, Encode(codec, v)) && !Absent(Encode(codec, v))
    ensures CellVal(codec, c, Encode(codec, v)) == v
  {
    if v.VJson? {
      assert codec.marshal(v.m) != [] && codec.unmarshal(codec.marshal(v.m)) == Some(v.m);
    }
  }

  /** What the specification and the node carry for each of the account's own columns: the value that was set, and
      nothing, or the zero value, where none was. */
  lemma SpecCarries(order: Order, m: Mutation, conflict: seq<string>, id: int, c: Column)
    requires WellTyped(m) && Settable(c)
    ensures FieldValue(SpecOf(order, m, conflict).fields, c) == if c in m.fields then Some(m.fields[c]) else None
    ensures Get(WithId(NodeOf(order, m), id), c) == if c in m.fields then Some(m.fields[c]) else Get(ZERO, c)
    ensures SpecOf(order, m, conflict).onConflict == conflict
  {
    SpecFieldsLookup(m, order, c);
    NodeGet(order, m, id, c);
  }

  /** The edges of the specification: the groups, the proxy and the usage logs, each if there are any, and each with
      its own targets and relation. */
  lemma SpecEdgesAre(m: Mutation)
    ensures forall e :: e in SpecEdges(m) <==>
              || (m.groups != [] && e == EdgeSpec(M2M, m.groups))
              || (m.proxy.Some? && e == EdgeSpec(M2O, [m.proxy.value]))
              || (m.usageLogs != [] && e == EdgeSpec(O2M, m.usageLogs))
    ensures |SpecEdges(m)| == (if m.groups != [] then 1 else 0) + (if m.proxy.Some? then 1 else 0) +
                              (if m.usageLogs != [] then 1 else 0)
  {
  }

  /** What the returned node shows for a column. */
  lemma NodeGet(order: Order, m: Mutation, id: int, d: Column)
    requires WellTyped(m)
    ensures Get(WithId(NodeOf(order, m), id), d) ==
            if d == ID then Some(VInt(id))
            else if d == ProxyID && m.proxy.Some? then Some(VInt(m.proxy.value))
            else if d in m.fields then Some(m.fields[d])
            else Get(ZERO, d)
    ensures WithId(NodeOf(order, m), id).selectValues == map[]
  {
    NodeFieldsGet(ZERO, m, order, d);
    if m.proxy.Some? {
      PutGet(NodeFields(ZERO, m, order), ProxyID, VInt(m.proxy.value), d);
    }
    PutGet(NodeOf(order, m), ID, VInt(id), d);
  }

  /** What the row stores for it. */
  lemma StoredGet(codec: Codec, order: Order, m: Mutation, conflict: seq<string>, id: int, d: Column)
    requires WellTyped(m)
    ensures StoredCell(codec, SpecOf(order, m, conflict), id, d) ==
            if d == ID then CInt(id)
            else if d == ProxyID then (if m.proxy.Some? then CInt(m.proxy.value) else NULL)
            else if d in m.fields then Encode(codec, m.fields[d])
            else NULL
  {
    SpecFieldsLookup(m, order, d);
    EdgeTarget(m);
  }

  /** The cell stored for a column, and what the returned node shows for it, are the same thing. */
  lemma StoredMatchesNode(codec: Codec, order: Order, m: Mutation, conflict: seq<string>, id: int, d: Column)
    requires RoundTrips(codec) && WellTyped(m)
    ensures var cell := StoredCell(codec, SpecOf(order, m, conflict), id, d);
            var shown := Get(WithId(NodeOf(order, m), id), d);
            && CellOk(codec, d, cell)
            && (Absent(cell) <==> cell.NULL?)
            && (Absent(cell) || d.Other? ==> shown == Get(ZERO, d))
            && (!Absent(cell) && !d.Other? ==> shown == Some(CellVal(codec, d, cell)))
  {
    NodeGet(order, m, id, d);
    StoredGet(codec, order, m, conflict, id, d);
    if d == ID {
      EncodeVal(codec, ID, VInt(id));
    } else if d == ProxyID {
      if m.proxy.Some? {
        EncodeVal(codec, ProxyID, VInt(m.proxy.value));
      }
    } else if d in m.fields {
      EncodeVal(codec, d, m.fields[d]);
    }
  }

  /** Read-back for any order of visiting the columns. */
  lemma ReadBack(codec: Codec, order: Order, m: Mutation, conflict: seq<string>, id: int, columns: seq<Column>)
    requires RoundTrips(codec) && WellTyped(m)
    requires forall c: Column :: !c.Other? && !StoredCell(codec, SpecOf(order, m, conflict), id, c).NULL? ==>
               c in columns
    ensures var read := ReadRow(codec, columns, StoredRow(codec, SpecOf(order, m, conflict), id));
            read.error.None? && read.fields.(selectValues := map[]) == WithId(NodeOf(order, m), id)
  {
    var row := StoredRow(codec, SpecOf(order, m, conflict), id);
    var node := WithId(NodeOf(order, m), id);
    forall c: Column
      ensures CellOk(codec, c, row(c))
    {
      StoredMatchesNode(codec, order, m, conflict, id, c);
    }
    var read := ReadRow(codec, columns, row).fields;
    var bare := read.(selectValues := map[]);
    forall d: Column
      ensures Get(bare, d) == Get(node, d)
    {
      ReadRowGet(codec, columns, row, d);
      StoredMatchesNode(codec, order, m, conflict, id, d);
      GetIgnoresExtra(read, map[], d);
    }
    ReadRowGet(codec, columns, row, ID);
    NodeGet(order, m, id, ID);
    FieldsExtensional(bare, node);
  }

  /** Create and read-back agree: decoding the row that `createSpec` describes, through any list of
      columns (in any order, with repeats and unknown names) that covers the cells that are not NULL,
      gives the very fields of the node that `createSpec` returned, with its key filled in. */
  lemma CreateReadBack(codec: Codec, m: Mutation, conflict: seq<string>, id: int, columns: seq<Column>)
    requires RoundTrips(codec) && WellTyped(m)
    requires forall c: Column :: !c.Other? && !StoredCell(codec, SpecOf(CREATE_COLUMNS, m, conflict), id, c).NULL? ==>
               c in columns
    ensures var read := ReadRow(codec, columns, StoredRow(codec, SpecOf(CREATE_COLUMNS, m, conflict), id));
            read.error.None? && read.fields.(selectValues := map[]) == WithId(NodeOf(CREATE_COLUMNS, m), id)
  {
    ReadBack(codec, CREATE_COLUMNS, m, conflict, id, columns);
  }
}
