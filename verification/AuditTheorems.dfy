/** What the audit gate's verdict depends on: not the order of the exceptions, the order of the
    tuples only where severities disagree, and the date only through a threshold. */
module AuditTheorems {
  import opened Seqs
  import opened AuditGate

  // ---------------------------------------------------------------------------
  // The order of the exceptions is irrelevant
  // ---------------------------------------------------------------------------

  function KeyOrBlank<R>(e: Exc<R>): Key {
    if e.Good? then e.key else ("", "")
  }

  function KeyFn<R>(): Exc<R> -> Key {
    e => KeyOrBlank(e)
  }

  lemma ExceptionsOkAsKeys<R>(excs: seq<Exc<R>>)
    ensures ExceptionsOk(excs) <==> (forall e :: e in excs ==> e.Good?) && Distinct(Map(KeyFn(), excs))
  {
    var keys := Map(KeyFn(), excs);
    if ExceptionsOk(excs) {
      assert forall i :: 0 <= i < |excs| ==> keys[i] == excs[i].key;
    }
    if (forall e :: e in excs ==> e.Good?) && Distinct(keys) {
      forall i | 0 <= i < |excs|
        ensures excs[i].Good? && keys[i] == excs[i].key
      {
        assert excs[i] in excs;
      }
    }
  }

  lemma ExceptionsOkPermuted<R>(a: seq<Exc<R>>, b: seq<Exc<R>>)
    requires multiset(a) == multiset(b)
    ensures ExceptionsOk(a) <==> ExceptionsOk(b)
  {
    ExceptionsOkAsKeys(a);
    ExceptionsOkAsKeys(b);
    PermutedMembers(a, b);
    MapPermuted(KeyFn(), a, b);
    DistinctPermuted(Map(KeyFn(), a), Map(KeyFn(), b));
  }

  /** Permuting the exception list never changes the verdict. */
  lemma ExceptionOrderIrrelevant<R, V>(a: seq<Exc<R>>, b: seq<Exc<R>>, vulns: seq<Vuln<V>>, today: int)
    requires multiset(a) == multiset(b)
    ensures Passes(a, vulns, today) <==> Passes(b, vulns, today)
  {
    ExceptionsOkPermuted(a, b);
    PermutedMembers(a, b);
    forall v: Vuln<V>
      ensures Covered(a, v, today) <==> Covered(b, v, today)
    {
    }
  }

  // ---------------------------------------------------------------------------
  // The order of the tuples
  // ---------------------------------------------------------------------------

  ghost predicate AllCovered<R, V>(excs: seq<Exc<R>>, vulns: seq<Vuln<V>>, today: int) {
    forall v :: v in vulns && v.Live? ==> Covered(excs, v, today)
  }

  /** Some live tuple with the key of `v` is covered. */
  ghost predicate KeyCovered<R, V>(excs: seq<Exc<R>>, vulns: seq<Vuln<V>>, v: Vuln<V>, today: int)
    requires v.Live?
  {
    exists u :: u in vulns && u.Live? && u.key == v.key && Covered(excs, u, today)
  }

  ghost predicate EveryKeyCovered<R, V>(excs: seq<Exc<R>>, vulns: seq<Vuln<V>>, today: int) {
    forall v :: v in vulns && v.Live? ==> KeyCovered(excs, vulns, v, today)
  }

  ghost predicate Permutation<T>(a: seq<T>, b: seq<T>) {
    multiset(a) == multiset(b)
  }

  lemma AllCoveredPasses<R, V>(excs: seq<Exc<R>>, vulns: seq<Vuln<V>>, order: seq<Vuln<V>>, today: int)
    requires Permutation(vulns, order)
    requires ExceptionsOk(excs) && StreamOk(vulns) && AllCovered(excs, vulns, today)
    ensures Passes(excs, order, today)
  {
    PermutedMembers(vulns, order);
    assert forall i :: FirstOfKey(order, i) ==> order[i] in order;
  }

  function ToFront<T>(s: seq<T>, i: nat): (r: seq<T>)
    requires i < |s|
    ensures r != [] && r[0] == s[i]
    ensures multiset(r) == multiset(s)
  {
    WithoutMultiset(s, i);
    [s[i]] + Without(s, i)
  }

  /** Every order of the tuples passes exactly when every live tuple is covered, not just the first
      of each key. */
  lemma EveryOrderPasses<R, V>(excs: seq<Exc<R>>, vulns: seq<Vuln<V>>, today: int)
    ensures (forall order :: Permutation(vulns, order) ==> Passes(excs, order, today)) <==>
            ExceptionsOk(excs) && StreamOk(vulns) && AllCovered(excs, vulns, today)
  {
    if forall order :: Permutation(vulns, order) ==> Passes(excs, order, today) {
      assert Permutation(vulns, vulns);
      forall v | v in vulns && v.Live?
        ensures Covered(excs, v, today)
      {
        var i :| 0 <= i < |vulns| && vulns[i] == v;
        var order := ToFront(vulns, i);
        assert Permutation(vulns, order);
        assert FirstOfKey(order, 0);
      }
    }
    if ExceptionsOk(excs) && StreamOk(vulns) && AllCovered(excs, vulns, today) {
      forall order | Permutation(vulns, order)
        ensures Passes(excs, order, today)
      {
        AllCoveredPasses(excs, vulns, order, today);
      }
    }
  }

  ghost function CoveredFn<R, V>(excs: seq<Exc<R>>, today: int): Vuln<V> -> bool {
    v => Covered(excs, v, today)
  }

  /** With the covered tuples moved to the front, the first tuple of each key is a covered one. */
  lemma CoveredFirst<R, V>(excs: seq<Exc<R>>, vulns: seq<Vuln<V>>, today: int, i: nat)
    requires EveryKeyCovered(excs, vulns, today)
    requires FirstOfKey(Partition(CoveredFn(excs, today), vulns), i)
    ensures Covered(excs, Partition(CoveredFn(excs, today), vulns)[i], today)
  {
    hide Partition;
    var covered := CoveredFn<R, V>(excs, today);
    var order := Partition(covered, vulns);
    var v := order[i];
    if !covered(v) {
      PermutedMembers(order, vulns);
      assert v in order;
      assert KeyCovered(excs, vulns, v, today);
      var u :| u in vulns && u.Live? && u.key == v.key && Covered(excs, u, today);
      PartitionFront(covered, vulns, i, u);
    }
  }

  lemma CoveredFirstPasses<R, V>(excs: seq<Exc<R>>, vulns: seq<Vuln<V>>, today: int)
    requires ExceptionsOk(excs) && StreamOk(vulns) && EveryKeyCovered(excs, vulns, today)
    ensures Passes(excs, Partition(CoveredFn(excs, today), vulns), today)
  {
    var order := Partition(CoveredFn(excs, today), vulns);
    PermutedMembers(order, vulns);
    forall i | FirstOfKey(order, i)
      ensures Covered(excs, order[i], today)
    {
      CoveredFirst(excs, vulns, today, i);
    }
  }

  lemma FirstWithKey<V>(vulns: seq<Vuln<V>>, i: nat) returns (f: nat)
    requires i < |vulns| && vulns[i].Live?
    ensures f <= i && FirstOfKey(vulns, f) && vulns[f].key == vulns[i].key
  {
    f := i;
    while SeenBefore(vulns, f, vulns[f].key)
      invariant f <= i && vulns[f].Live? && vulns[f].key == vulns[i].key
      decreases f
    {
      var j :| 0 <= j < f && vulns[j].Live? && vulns[j].key == vulns[f].key;
      f := j;
    }
  }

  lemma PassesCoversKeys<R, V>(excs: seq<Exc<R>>, vulns: seq<Vuln<V>>, order: seq<Vuln<V>>, today: int)
    requires Permutation(vulns, order) && Passes(excs, order, today)
    ensures ExceptionsOk(excs) && StreamOk(vulns) && EveryKeyCovered(excs, vulns, today)
  {
    PermutedMembers(vulns, order);
    forall v | v in vulns && v.Live?
      ensures KeyCovered(excs, vulns, v, today)
    {
      var i :| 0 <= i < |order| && order[i] == v;
      var f := FirstWithKey(order, i);
      assert order[f] in order;
    }
  }

  /** Some order of the tuples passes exactly when every live key has a covered tuple. */
  lemma SomeOrderPasses<R, V>(excs: seq<Exc<R>>, vulns: seq<Vuln<V>>, today: int)
    ensures (exists order :: Permutation(vulns, order) && Passes(excs, order, today)) <==>
            ExceptionsOk(excs) && StreamOk(vulns) && EveryKeyCovered(excs, vulns, today)
  {
    if order :| Permutation(vulns, order) && Passes(excs, order, today) {
      PassesCoversKeys(excs, vulns, order, today);
    }
    if ExceptionsOk(excs) && StreamOk(vulns) && EveryKeyCovered(excs, vulns, today) {
      CoveredFirstPasses(excs, vulns, today);
      assert Permutation(vulns, Partition(CoveredFn(excs, today), vulns));
    }
  }

  /** The verdict is the same for every order of the tuples exactly when a covered tuple for each
      key means that no live tuple is uncovered. */
  lemma TupleOrderIrrelevantIff<R, V>(excs: seq<Exc<R>>, vulns: seq<Vuln<V>>, today: int)
    ensures (forall order :: Permutation(vulns, order) ==>
              (Passes(excs, order, today) <==> Passes(excs, vulns, today))) <==>
            (ExceptionsOk(excs) && StreamOk(vulns) && EveryKeyCovered(excs, vulns, today) ==>
              AllCovered(excs, vulns, today))
  {
    EveryOrderPasses(excs, vulns, today);
    SomeOrderPasses(excs, vulns, today);
    assert Permutation(vulns, vulns);
    if order :| Permutation(vulns, order) && Passes(excs, order, today) {
      if other :| Permutation(vulns, other) && !Passes(excs, other, today) {
        assert !AllCovered(excs, vulns, today);
      }
    }
  }

  /** Live tuples with the same key agree on severity. */
  ghost predicate SeveritiesAgree<V>(vulns: seq<Vuln<V>>) {
    forall u, v :: u in vulns && v in vulns && u.Live? && v.Live? && u.key == v.key ==> u.severity == v.severity
  }

  /** Where severities agree, permuting the tuples never changes the verdict. */
  lemma TupleOrderIrrelevant<R, V>(excs: seq<Exc<R>>, vulns: seq<Vuln<V>>, order: seq<Vuln<V>>, today: int)
    requires SeveritiesAgree(vulns) && Permutation(vulns, order)
    ensures Passes(excs, order, today) <==> Passes(excs, vulns, today)
  {
    forall v | v in vulns && v.Live? && KeyCovered(excs, vulns, v, today)
      ensures Covered(excs, v, today)
    {
      var u :| u in vulns && u.Live? && u.key == v.key && Covered(excs, u, today);
      var e :| e in excs && Covers(e, u, today);
      assert Covers(e, v, today);
    }
    TupleOrderIrrelevantIff(excs, vulns, today);
  }

  /** Where they disagree it can: a key reported as high and as critical, with an exception for high,
      passes with the high tuple first and fails with the critical one first. */
  lemma FirstSeverityDecides<R, V>(e: Exc<R>, high: Vuln<V>, critical: Vuln<V>, today: int)
    requires Covers(e, high, today) && e.severity == "high"
    requires critical.Live? && critical.key == high.key && critical.severity == "critical"
    ensures Passes([e], [high, critical], today) && !Passes([e], [critical, high], today)
  {
    var vulns, order := [high, critical], [critical, high];
    assert e in [e];
    assert !FirstOfKey(vulns, 1) by {
      assert vulns[0].key == high.key;
    }
    assert Passes([e], vulns, today);
    assert FirstOfKey(order, 0);
    assert "high"[0] != "critical"[0];
    assert !Covered([e], critical, today);
  }

  // ---------------------------------------------------------------------------
  // The date
  // ---------------------------------------------------------------------------

  /** The exception is consulted: some live tuple has its key. */
  predicate Matched<R, V(==)>(e: Exc<R>, vulns: seq<Vuln<V>>) {
    e.Good? && exists v :: v in vulns && v.Live? && v.key == e.key
  }

  /** The earliest expiry among the consulted exceptions. */
  datatype Deadline = Never | Day(day: int)

  function EarliestExpiry<R, V(==)>(excs: seq<Exc<R>>, vulns: seq<Vuln<V>>): Deadline {
    if excs == [] then Never
    else
      var rest := EarliestExpiry(excs[1..], vulns);
      if !Matched(excs[0], vulns) then rest
      else if rest.Day? && rest.day < excs[0].expires then rest
      else Day(excs[0].expires)
  }

  predicate NotAfter(today: int, d: Deadline) {
    d.Day? ==> today <= d.day
  }

  lemma {:induction false} EarliestIsMinimum<R, V>(excs: seq<Exc<R>>, vulns: seq<Vuln<V>>)
    ensures forall e :: e in excs && Matched(e, vulns) ==>
              EarliestExpiry(excs, vulns).Day? && EarliestExpiry(excs, vulns).day <= e.expires
    ensures EarliestExpiry(excs, vulns).Day? ==>
              exists e :: e in excs && Matched(e, vulns) && e.expires == EarliestExpiry(excs, vulns).day
  {
    if excs != [] {
      EarliestIsMinimum(excs[1..], vulns);
      assert excs == [excs[0]] + excs[1..];
    }
  }

  lemma CoveredOn<R, V>(excs: seq<Exc<R>>, vulns: seq<Vuln<V>>, v: Vuln<V>, day: int, today: int)
    requires ExceptionsOk(excs) && v in vulns && v.Live? && Covered(excs, v, day)
    requires NotAfter(today, EarliestExpiry(excs, vulns))
    ensures Covered(excs, v, today)
  {
    var e :| e in excs && Covers(e, v, day);
    EarliestIsMinimum(excs, vulns);
    assert Matched(e, vulns);
    assert Covers(e, v, today);
  }

  lemma PassesMeetsDeadline<R, V>(excs: seq<Exc<R>>, vulns: seq<Vuln<V>>, today: int)
    requires Passes(excs, vulns, today)
    ensures NotAfter(today, EarliestExpiry(excs, vulns))
  {
    EarliestIsMinimum(excs, vulns);
    if EarliestExpiry(excs, vulns).Day? {
      var e :| e in excs && Matched(e, vulns) && e.expires == EarliestExpiry(excs, vulns).day;
      var v :| v in vulns && v.Live? && v.key == e.key;
      var i :| 0 <= i < |vulns| && vulns[i] == v;
      var f := FirstWithKey(vulns, i);
      var c :| c in excs && Covers(c, vulns[f], today);
    }
  }

  /** If the gate passes on some day, the days it passes are exactly those not later than the
      earliest expiry among the exceptions the stream consults; all days if it consults none. */
  lemma DateThreshold<R, V>(excs: seq<Exc<R>>, vulns: seq<Vuln<V>>, day: int, today: int)
    requires Passes(excs, vulns, day)
    ensures Passes(excs, vulns, today) <==> NotAfter(today, EarliestExpiry(excs, vulns))
  {
    if NotAfter(today, EarliestExpiry(excs, vulns)) {
      forall i | FirstOfKey(vulns, i)
        ensures Covered(excs, vulns[i], today)
      {
        CoveredOn(excs, vulns, vulns[i], day, today);
      }
    }
    if Passes(excs, vulns, today) {
      PassesMeetsDeadline(excs, vulns, today);
    }
  }
}
