/**
 The decision of the audit gate (`main` of tools/check_pnpm_audit_exceptions.py), after each
 exception and each vulnerability tuple has been normalised (module `AuditInput`): index the
 exceptions, walk the tuples once, and fail on any finding. Dates are ordinal numbers.
 */
module AuditGate {
  /** A package and an advisory, both normalised. */
  type Key = (string, string)

  /** An exception: lacking a required field, without a valid date, with a blank key, or good. */
  datatype Exc<R> =
    | Incomplete(raw: R)
    | Undated(raw: R)
    | BlankKey(raw: R)
    | Good(raw: R, key: Key, severity: string, expires: int)

  /** A tuple: with a severity that is a number (which raises), not high or critical or nameless,
      without an advisory, or one that needs an exception. */
  datatype Vuln<V> =
    | Fatal(raw: V)
    | Ignored(raw: V)
    | NoAdvisory(raw: V, severity: string)
    | Live(raw: V, key: Key, severity: string)

  // ---------------------------------------------------------------------------
  // The declarative meaning of the gate
  // ---------------------------------------------------------------------------

  /** All exceptions are good and pairwise distinct by key. */
  ghost predicate ExceptionsOk<R>(excs: seq<Exc<R>>) {
    && (forall i :: 0 <= i < |excs| ==> excs[i].Good?)
    && forall i, j :: 0 <= i < j < |excs| ==> excs[i].key != excs[j].key
  }

  /** Every high or critical tuple with a name has an advisory. */
  ghost predicate StreamOk<V>(vulns: seq<Vuln<V>>) {
    forall v :: v in vulns ==> v.Ignored? || v.Live?
  }

  predicate Fits<R, V>(e: Exc<R>, v: Vuln<V>) {
    e.Good? && v.Live? && e.key == v.key && (e.severity == "" || e.severity == v.severity)
  }

  predicate Covers<R, V>(e: Exc<R>, v: Vuln<V>, today: int) {
    Fits(e, v) && today <= e.expires
  }

  ghost predicate Covered<R, V>(excs: seq<Exc<R>>, v: Vuln<V>, today: int) {
    exists e :: e in excs && Covers(e, v, today)
  }

  predicate SeenBefore<V>(vulns: seq<Vuln<V>>, i: nat, k: Key)
    requires i <= |vulns|
  {
    exists j :: 0 <= j < i && vulns[j].Live? && vulns[j].key == k
  }

  /** The tuple at `i` is the first live one with its key. */
  predicate FirstOfKey<V>(vulns: seq<Vuln<V>>, i: int) {
    0 <= i < |vulns| && vulns[i].Live? && !SeenBefore(vulns, i, vulns[i].key)
  }

  ghost predicate Passes<R, V>(excs: seq<Exc<R>>, vulns: seq<Vuln<V>>, today: int) {
    && ExceptionsOk(excs)
    && StreamOk(vulns)
    && forall i :: FirstOfKey(vulns, i) ==> Covered(excs, vulns[i], today)
  }

  // ---------------------------------------------------------------------------
  // Indexing the exceptions
  // ---------------------------------------------------------------------------

  datatype Entry<R> = Entry(raw: R, severity: string, expires: int)

  datatype GateError<R, V> =
    | MissingFields(exc: R)
    | InvalidDate(exc: R)
    | MissingKeyValue
    | Duplicate(exc: R)
    | MissingAdvisory(vuln: V, severity: string)
    | SeverityMismatch(vuln: V, expected: string, got: string)

  predicate KeyBefore<R>(excs: seq<Exc<R>>, i: nat, k: Key)
    requires i <= |excs|
  {
    exists j :: 0 <= j < i && excs[j].Good? && excs[j].key == k
  }

  /** The exception at `i` is the first good one with its key. */
  predicate FirstExc<R>(excs: seq<Exc<R>>, i: int) {
    0 <= i < |excs| && excs[i].Good? && !KeyBefore(excs, i, excs[i].key)
  }

  /** `index` holds, for each key of a good exception among the first `n`, the first such exception. */
  ghost predicate IsIndex<R>(excs: seq<Exc<R>>, n: nat, index: map<Key, Entry<R>>)
    requires n <= |excs|
  {
    && (forall k :: k in index <==> KeyBefore(excs, n, k))
    && forall i :: 0 <= i < n && FirstExc(excs, i) ==>
         excs[i].key in index && index[excs[i].key] == Entry(excs[i].raw, excs[i].severity, excs[i].expires)
  }

  function ExcErrorAt<R, V>(excs: seq<Exc<R>>, i: nat): seq<GateError<R, V>>
    requires i < |excs|
  {
    match excs[i]
    case Incomplete(raw) => [MissingFields(raw)]
    case Undated(raw) => [InvalidDate(raw)]
    case BlankKey(_) => [MissingKeyValue]
    case Good(raw, _, _, _) => if FirstExc(excs, i) then [] else [Duplicate(raw)]
  }

  /** One error for each exception that is not the first good one with its key, in order. */
  function ExcErrors<R, V>(excs: seq<Exc<R>>, n: nat): seq<GateError<R, V>>
    requires n <= |excs|
  {
    if n == 0 then [] else ExcErrors(excs, n - 1) + ExcErrorAt(excs, n - 1)
  }

  method IndexExceptions<R, V>(excs: seq<Exc<R>>)
    returns (index: map<Key, Entry<R>>, errors: seq<GateError<R, V>>)
    ensures IsIndex(excs, |excs|, index)
    ensures errors == ExcErrors(excs, |excs|)
  {
    index, errors := map[], [];
    for i := 0 to |excs|
      invariant IsIndex(excs, i, index)
      invariant errors == ExcErrors(excs, i)
    {
      match excs[i] {
        case Incomplete(raw) =>
          errors := errors + [MissingFields(raw)];
        case Undated(raw) =>
          errors := errors + [InvalidDate(raw)];
        case BlankKey(_) =>
          errors := errors + [MissingKeyValue];
        case Good(raw, key, severity, expires) =>
          if key in index {
            errors := errors + [Duplicate(raw)];
          } else {
            index := index[key := Entry(raw, severity, expires)];
          }
      }
    }
  }

  lemma ConcatEmpty<T>(a: seq<T>, b: seq<T>)
    ensures a + b == [] <==> a == [] && b == []
  {
    assert |a + b| == |a| + |b|;
  }

  lemma {:induction false} NoExcErrors<R, V>(excs: seq<Exc<R>>, n: nat)
    requires n <= |excs|
    ensures ExcErrors<R, V>(excs, n) == [] <==> forall i :: 0 <= i < n ==> FirstExc(excs, i)
  {
    if n > 0 {
      NoExcErrors<R, V>(excs, n - 1);
      ConcatEmpty(ExcErrors<R, V>(excs, n - 1), ExcErrorAt<R, V>(excs, n - 1));
      assert ExcErrorAt<R, V>(excs, n - 1) == [] <==> FirstExc(excs, n - 1);
    }
  }

  /** The first loop of `main` reports nothing exactly on a well-formed exception list. */
  lemma IndexingClean<R, V>(excs: seq<Exc<R>>)
    ensures ExcErrors<R, V>(excs, |excs|) == [] <==> ExceptionsOk(excs)
  {
    NoExcErrors<R, V>(excs, |excs|);
    if ExcErrors<R, V>(excs, |excs|) == [] {
      forall i, j | 0 <= i < j < |excs|
        ensures excs[i].Good? && excs[j].Good? && excs[i].key != excs[j].key
      {
        assert FirstExc(excs, i) && FirstExc(excs, j);
      }
    }
  }

  // ---------------------------------------------------------------------------
  // Walking the tuples
  // ---------------------------------------------------------------------------

  // What the first tuple of a key adds to each of the three lists of findings.

  function Mismatch<R, V>(index: map<Key, Entry<R>>, raw: V, key: Key, sev: string): seq<GateError<R, V>> {
    if key in index && index[key].severity != "" && index[key].severity != sev
    then [SeverityMismatch(raw, sev, index[key].severity)] else []
  }

  function Missing<R, V>(index: map<Key, Entry<R>>, raw: V, key: Key): seq<V> {
    if key !in index then [raw] else []
  }

  function Expired<R, V>(index: map<Key, Entry<R>>, raw: V, key: Key, today: int): seq<(V, int)> {
    if key in index && index[key].expires < today then [(raw, index[key].expires)] else []
  }

  // What the tuple at `i` adds.

  function ScanErrorAt<R, V>(index: map<Key, Entry<R>>, vulns: seq<Vuln<V>>, i: nat): seq<GateError<R, V>>
    requires i < |vulns|
  {
    match vulns[i]
    case Fatal(_) => []
    case Ignored(_) => []
    case NoAdvisory(raw, sev) => [MissingAdvisory(raw, sev)]
    case Live(raw, key, sev) => if FirstOfKey(vulns, i) then Mismatch(index, raw, key, sev) else []
  }

  function MissingAt<R, V>(index: map<Key, Entry<R>>, vulns: seq<Vuln<V>>, i: nat): seq<V>
    requires i < |vulns|
  {
    if FirstOfKey(vulns, i) then Missing(index, vulns[i].raw, vulns[i].key) else []
  }

  function ExpiredAt<R, V>(index: map<Key, Entry<R>>, vulns: seq<Vuln<V>>, today: int, i: nat): seq<(V, int)>
    requires i < |vulns|
  {
    if FirstOfKey(vulns, i) then Expired(index, vulns[i].raw, vulns[i].key, today) else []
  }

  datatype Findings<R, V> = Findings(errors: seq<GateError<R, V>>, missing: seq<V>, expired: seq<(V, int)>)

  predicate Clean<R, V>(f: Findings<R, V>) {
    f.errors == [] && f.missing == [] && f.expired == []
  }

  /** What the first `n` tuples add to the three lists of findings. */
  function Scan<R, V>(index: map<Key, Entry<R>>, vulns: seq<Vuln<V>>, today: int, n: nat): Findings<R, V>
    requires n <= |vulns|
  {
    if n == 0 then Findings([], [], [])
    else
      var f := Scan(index, vulns, today, n - 1);
      Findings(f.errors + ScanErrorAt(index, vulns, n - 1),
               f.missing + MissingAt(index, vulns, n - 1),
               f.expired + ExpiredAt(index, vulns, today, n - 1))
  }

  lemma SeenStep<V>(vulns: seq<Vuln<V>>, i: nat, k: Key)
    requires i < |vulns|
    ensures SeenBefore(vulns, i + 1, k) <==> SeenBefore(vulns, i, k) || (vulns[i].Live? && vulns[i].key == k)
  {
  }

  lemma ScanStep<R, V>(index: map<Key, Entry<R>>, vulns: seq<Vuln<V>>, today: int, i: nat)
    requires i < |vulns|
    ensures var f := Scan(index, vulns, today, i);
            Scan(index, vulns, today, i + 1) ==
            Findings(f.errors + ScanErrorAt(index, vulns, i),
                     f.missing + MissingAt(index, vulns, i),
                     f.expired + ExpiredAt(index, vulns, today, i))
  {
  }

  /** The rest of the loop body, for the first tuple of a key. */
  method Judge<R, V>(index: map<Key, Entry<R>>, raw: V, key: Key, sev: string, today: int, before: Findings<R, V>)
    returns (f: Findings<R, V>)
    ensures f == Findings(before.errors + Mismatch(index, raw, key, sev), before.missing + Missing(index, raw, key),
                          before.expired + Expired(index, raw, key, today))
  {
    f := before;
    if key !in index {
      f := f.(missing := f.missing + [raw]);
    } else {
      var exc := index[key];
      if exc.severity != "" && exc.severity != sev {
        f := f.(errors := f.errors + [SeverityMismatch(raw, sev, exc.severity)]);
      }
      if exc.expires < today {
        f := f.(expired := f.expired + [(raw, exc.expires)]);
      }
    }
  }

  method ScanVulns<R, V>(index: map<Key, Entry<R>>, vulns: seq<Vuln<V>>, today: int)
    returns (crashed: bool, f: Findings<R, V>)
    ensures crashed <==> exists v :: v in vulns && v.Fatal?
    ensures !crashed ==> f == Scan(index, vulns, today, |vulns|)
  {
    f := Findings([], [], []);
    crashed := false;
    var seen: set<Key> := {};
    assert f == Scan(index, vulns, today, 0);
    hide Scan, Mismatch, Missing, Expired;
    for i := 0 to |vulns|
      invariant !crashed && forall j :: 0 <= j < i ==> !vulns[j].Fatal?
      invariant forall k :: k in seen <==> SeenBefore(vulns, i, k)
      invariant f == Scan(index, vulns, today, i)
    {
      hide SeenBefore;
      forall k
        ensures SeenBefore(vulns, i + 1, k) <==> SeenBefore(vulns, i, k) || (vulns[i].Live? && vulns[i].key == k)
      {
        SeenStep(vulns, i, k);
      }
      ScanStep(index, vulns, today, i);
      match vulns[i] {
        case Fatal(_) =>
          assert vulns[i] in vulns;
          crashed := true;
          return;
        case Ignored(_) =>
        case NoAdvisory(raw, sev) =>
          f := f.(errors := f.errors + [MissingAdvisory(raw, sev)]);
        case Live(raw, key, sev) =>
          if key !in seen {
            seen := seen + {key};
            f := Judge(index, raw, key, sev, today, f);
          }
      }
    }
  }

  predicate CleanAt<R, V>(index: map<Key, Entry<R>>, vulns: seq<Vuln<V>>, today: int, i: nat)
    requires i < |vulns|
  {
    && ScanErrorAt(index, vulns, i) == [] && MissingAt(index, vulns, i) == []
    && ExpiredAt(index, vulns, today, i) == []
  }

  lemma CleanStep<R, V>(index: map<Key, Entry<R>>, vulns: seq<Vuln<V>>, today: int, n: nat)
    requires 0 < n <= |vulns|
    ensures Clean(Scan(index, vulns, today, n)) <==>
            Clean(Scan(index, vulns, today, n - 1)) && CleanAt(index, vulns, today, n - 1)
  {
    var f := Scan(index, vulns, today, n - 1);
    ConcatEmpty(f.errors, ScanErrorAt(index, vulns, n - 1));
    ConcatEmpty(f.missing, MissingAt(index, vulns, n - 1));
    ConcatEmpty(f.expired, ExpiredAt(index, vulns, today, n - 1));
  }

  ghost predicate CleanUpTo<R, V>(index: map<Key, Entry<R>>, vulns: seq<Vuln<V>>, today: int, n: nat)
    requires n <= |vulns|
  {
    forall i :: 0 <= i < n ==> CleanAt(index, vulns, today, i)
  }

  lemma {:induction false} CleanScan<R, V>(index: map<Key, Entry<R>>, vulns: seq<Vuln<V>>, today: int, n: nat)
    requires n <= |vulns|
    ensures Clean(Scan(index, vulns, today, n)) <==> CleanUpTo(index, vulns, today, n)
  {
    hide Scan, CleanUpTo, CleanAt, Clean;
    if n == 0 {
      NothingScanned(index, vulns, today);
    } else {
      CleanScan(index, vulns, today, n - 1);
      CleanStep(index, vulns, today, n);
      CleanUpToStep(index, vulns, today, n);
    }
  }

  lemma NothingScanned<R, V>(index: map<Key, Entry<R>>, vulns: seq<Vuln<V>>, today: int)
    ensures Clean(Scan(index, vulns, today, 0)) && CleanUpTo(index, vulns, today, 0)
  {
  }

  lemma CleanUpToStep<R, V>(index: map<Key, Entry<R>>, vulns: seq<Vuln<V>>, today: int, n: nat)
    requires 0 < n <= |vulns|
    ensures CleanUpTo(index, vulns, today, n) <==>
            CleanUpTo(index, vulns, today, n - 1) && CleanAt(index, vulns, today, n - 1)
  {
  }

  // ---------------------------------------------------------------------------
  // main
  // ---------------------------------------------------------------------------

  datatype Verdict<R, V> = Validated | Rejected(findings: Findings<R, V>) | Crash

  /** With a clean exception list, the index answers exactly as a search through the list would. */
  lemma LookupCovers<R, V>(excs: seq<Exc<R>>, index: map<Key, Entry<R>>, v: Vuln<V>, today: int)
    requires ExceptionsOk(excs) && IsIndex(excs, |excs|, index) && v.Live?
    ensures Covered(excs, v, today) <==>
            && v.key in index
            && (index[v.key].severity == "" || index[v.key].severity == v.severity)
            && !(index[v.key].expires < today)
  {
    assert forall i :: 0 <= i < |excs| ==> FirstExc(excs, i);
    if v.key in index {
      var i :| 0 <= i < |excs| && excs[i].key == v.key;
      assert excs[i] in excs;
    }
  }

  lemma CleanScanPasses<R, V>(excs: seq<Exc<R>>, index: map<Key, Entry<R>>, vulns: seq<Vuln<V>>, today: int)
    requires ExceptionsOk(excs) && IsIndex(excs, |excs|, index)
    requires forall v :: v in vulns ==> !v.Fatal?
    ensures Clean(Scan(index, vulns, today, |vulns|)) <==> Passes(excs, vulns, today)
  {
    CleanScan(index, vulns, today, |vulns|);
    forall i | 0 <= i < |vulns|
      ensures CleanAt(index, vulns, today, i) <==>
              (vulns[i].Ignored? || vulns[i].Live?) && (FirstOfKey(vulns, i) ==> Covered(excs, vulns[i], today))
    {
      assert vulns[i] in vulns;
      if vulns[i].Live? {
        LookupCovers(excs, index, vulns[i], today);
      }
    }
  }

  /** What `main` decides: exit code 0 (`Validated`) exactly when the gate passes in its declarative
      meaning, and otherwise the three lists of findings. */
  method Decide<R, V>(excs: seq<Exc<R>>, vulns: seq<Vuln<V>>, today: int) returns (v: Verdict<R, V>)
    ensures v.Validated? <==> Passes(excs, vulns, today)
    ensures v.Crash? <==> exists u :: u in vulns && u.Fatal?
    ensures v.Rejected? ==>
              exists index ::
                && IsIndex(excs, |excs|, index)
                && var f := Scan(index, vulns, today, |vulns|);
                   v.findings == f.(errors := ExcErrors(excs, |excs|) + f.errors)
  {
    var index, errors := IndexExceptions<R, V>(excs);
    var crashed, f := ScanVulns(index, vulns, today);
    if crashed {
      return Crash;
    }
    IndexingClean<R, V>(excs);
    if errors == [] {
      CleanScanPasses(excs, index, vulns, today);
    }
    if errors + f.errors == [] && f.missing == [] && f.expired == [] {
      return Validated;
    }
    v := Rejected(f.(errors := errors + f.errors));
  }
}
