/**
 How the audit gate reads its two inputs (tools/check_pnpm_audit_exceptions.py): the normalisers,
 the stream of tuples extracted from the report (`iter_vulns`), and the whole run.

 Lower-casing, number formatting and ISO date parsing are parameters: no theorem depends on what
 they compute. The report is taken as decoded, with the shapes the script distinguishes.
 */
module AuditInput {
  import opened Text
  import opened Seqs
  import opened AuditGate
  import AuditTheorems
  import ExceptionParser

  type Record = ExceptionParser.Record

  /** A decoded JSON scalar. */
  datatype PyVal = Null | Str(s: string) | Num(n: int)

  datatype Env = Env(lower: string -> string, show: int -> string, parseDate: string -> Option<int>)

  predicate Truthy(v: PyVal) {
    match v
    case Null => false
    case Str(s) => s != ""
    case Num(n) => n != 0
  }

  /** Python's `a or b`. */
  function Or(a: PyVal, b: PyVal): PyVal {
    if Truthy(a) then a else b
  }

  function Shown(env: Env, v: PyVal): string {
    match v
    case Null => ""
    case Str(s) => s
    case Num(n) => env.show(n)
  }

  function NormalizePackage(env: Env, v: PyVal): string {
    Strip(Shown(env, v))
  }

  function NormalizeAdvisory(env: Env, v: PyVal): string {
    if v.Null? then "" else env.lower(Strip(Shown(env, v)))
  }

  /** `None` is the `AttributeError` of calling `strip` on a number. */
  function NormalizeSeverity(env: Env, v: PyVal): Option<string> {
    if !Truthy(v) then Some(env.lower(Strip("")))
    else if v.Num? then None
    else Some(env.lower(Strip(v.s)))
  }

  /** Text with anything blank around it: a package name is trimmed, and keeps its case; an advisory and a
      severity are trimmed and lower-cased. */
  lemma NormalisesText(env: Env, left: string, s: string, right: string)
    requires Blank(left) && Blank(right) && Trimmed(s)
    ensures NormalizePackage(env, Str(left + s + right)) == s
    ensures NormalizeAdvisory(env, Str(left + s + right)) == env.lower(s)
    ensures NormalizeSeverity(env, Str(left + s + right)) == Some(env.lower(s))
  {
    StripPadded(left, s, right);
    StripTrimmed(s);
    hide Strip, Blank, Trimmed;
    StrippedText(env, left + s + right);
  }

  lemma StrippedText(env: Env, x: string)
    ensures NormalizePackage(env, Str(x)) == Strip(x)
    ensures NormalizeAdvisory(env, Str(x)) == env.lower(Strip(x))
    ensures NormalizeSeverity(env, Str(x)) == Some(env.lower(Strip(x)))
  {
    hide Strip;
  }

  /** Nothing at all is the empty name and the empty advisory; a number is taken as text, except as a severity:
      then zero counts as none given, and any other number raises. */
  lemma NormalisesOther(env: Env, n: int)
    ensures NormalizePackage(env, Null) == "" && NormalizeAdvisory(env, Null) == ""
    ensures NormalizePackage(env, Num(n)) == NormalizePackage(env, Str(env.show(n)))
    ensures NormalizeAdvisory(env, Num(n)) == NormalizeAdvisory(env, Str(env.show(n)))
    ensures NormalizeSeverity(env, Null) == Some(env.lower(""))
    ensures NormalizeSeverity(env, Num(n)) == if n == 0 then Some(env.lower("")) else None
  {
    StripTrimmed("");
    hide Strip;
  }

  // ---------------------------------------------------------------------------
  // Exceptions
  // ---------------------------------------------------------------------------

  const REQUIRED_FIELDS: set<string> := {"package", "advisory", "severity", "mitigation", "expires_on"}

  function Field(e: Record, f: string): string {
    if f in e then e[f] else ""
  }

  predicate Complete(e: Record) {
    forall f :: f in REQUIRED_FIELDS ==> Field(e, f) != ""
  }

  function RecordKey(env: Env, e: Record): Key {
    (NormalizePackage(env, Str(Field(e, "package"))), NormalizeAdvisory(env, Str(Field(e, "advisory"))))
  }

  function RecordSeverity(env: Env, e: Record): string {
    env.lower(Strip(Field(e, "severity")))
  }

  function RecordDate(env: Env, e: Record): Option<int> {
    env.parseDate(Field(e, "expires_on"))
  }

  predicate BlankPart(k: Key) {
    k.0 == "" || k.1 == ""
  }

  function ReadException(env: Env, e: Record): Exc<Record> {
    if !Complete(e) then Incomplete(e)
    else if RecordDate(env, e).None? then Undated(e)
    else if BlankPart(RecordKey(env, e)) then BlankKey(e)
    else Good(e, RecordKey(env, e), RecordSeverity(env, e), RecordDate(env, e).value)
  }

  /** The five fields that may not be missing or empty. */
  lemma CompleteIff(e: Record)
    ensures Complete(e) <==>
            && "package" in e && e["package"] != "" && "advisory" in e && e["advisory"] != ""
            && "severity" in e && e["severity"] != "" && "mitigation" in e && e["mitigation"] != ""
            && "expires_on" in e && e["expires_on"] != ""
  {
    if Complete(e) {
      assert Field(e, "package") != "" && Field(e, "advisory") != "" && Field(e, "severity") != "";
      assert Field(e, "mitigation") != "" && Field(e, "expires_on") != "";
    }
  }

  /** What is read of a record: its package and its advisory as key, its severity and its date, each from its own
      field. */
  lemma RecordReads(env: Env, e: Record, package: string, advisory: string, severity: string)
    requires "package" in e && "advisory" in e && "severity" in e && "expires_on" in e
    requires Strip(e["package"]) == package && Strip(e["advisory"]) == advisory && Strip(e["severity"]) == severity
    ensures RecordKey(env, e) == (package, env.lower(advisory))
    ensures RecordSeverity(env, e) == env.lower(severity)
    ensures RecordDate(env, e) == env.parseDate(e["expires_on"])
  {
    hide Strip;
  }

  /** Which exception a record is, in the order in which the script looks: a missing field, then a date that is
      none, then a blank package or advisory. */
  lemma ReadsException(env: Env, e: Record)
    ensures ReadException(env, e).Incomplete? <==> !Complete(e)
    ensures ReadException(env, e).Undated? <==> Complete(e) && RecordDate(env, e).None?
    ensures ReadException(env, e).BlankKey? <==>
            Complete(e) && RecordDate(env, e).Some? && (RecordKey(env, e).0 == "" || RecordKey(env, e).1 == "")
    ensures ReadException(env, e).raw == e
    ensures ReadException(env, e).Good? ==>
              ReadException(env, e) ==
              Good(e, RecordKey(env, e), RecordSeverity(env, e), RecordDate(env, e).value)
  {
    hide Complete, RecordKey, RecordDate, RecordSeverity;
  }

  function ExceptionReader(env: Env): Record -> Exc<Record> {
    e => ReadException(env, e)
  }

  // ---------------------------------------------------------------------------
  // Tuples
  // ---------------------------------------------------------------------------

  /** One tuple yielded by `iter_vulns`. */
  datatype Tuple = Tuple(name: PyVal, severity: PyVal, advisory: PyVal, title: PyVal)

  predicate Severe(env: Env, t: Tuple) {
    var sev := NormalizeSeverity(env, t.severity);
    sev == Some("high") || sev == Some("critical")
  }

  /** High or critical, with a name. */
  predicate Relevant(env: Env, t: Tuple) {
    Severe(env, t) && Truthy(t.name)
  }

  function TupleKey(env: Env, t: Tuple): Key {
    (NormalizePackage(env, t.name), NormalizeAdvisory(env, t.advisory))
  }

  function ReadTuple(env: Env, t: Tuple): Vuln<Tuple> {
    match NormalizeSeverity(env, t.severity)
    case None => Fatal(t)
    case Some(sev) =>
      if sev !in {"high", "critical"} || !Truthy(t.name) then Ignored(t)
      else if NormalizeAdvisory(env, t.advisory) == "" then NoAdvisory(t, sev)
      else Live(t, TupleKey(env, t), sev)
  }

  /** A tuple is looked up under its own name and advisory. */
  lemma TupleReads(env: Env, t: Tuple, package: string, advisory: string)
    requires t.name.Str? && Strip(t.name.s) == package && t.advisory.Str? && Strip(t.advisory.s) == advisory
    ensures TupleKey(env, t) == (package, env.lower(advisory))
  {
    hide Strip;
  }

  function TupleReader(env: Env): Tuple -> Vuln<Tuple> {
    t => ReadTuple(env, t)
  }

  ghost predicate GatePasses(env: Env, records: seq<Record>, tuples: seq<Tuple>, today: int) {
    Passes(Map(ExceptionReader(env), records), Map(TupleReader(env), tuples), today)
  }

  // ---------------------------------------------------------------------------
  // iter_vulns
  // ---------------------------------------------------------------------------

  /** An entry of the `advisories` object. */
  datatype Advisory = Advisory(moduleName: PyVal, name: PyVal, severity: PyVal, githubId: PyVal, url: PyVal,
                               cves: seq<PyVal>, id: PyVal, title: PyVal, advisory: PyVal, overview: PyVal)

  /** An element of a `via` list: an object, a string, or something else. */
  datatype ViaItem =
    | Source(githubId: PyVal, url: PyVal, source: PyVal, title: PyVal, name: PyVal, advisory: PyVal)
    | Named(s: string)
    | OtherItem

  /** The `via` of a package: a list (empty when absent), a string, or something else. */
  datatype Via = Items(items: seq<ViaItem>) | One(s: string) | OtherVia

  /** An entry of the `vulnerabilities` object. */
  datatype Package = Package(name: string, severity: PyVal, via: Via)

  /** Either object may be absent. */
  datatype Report = Report(advisories: seq<Advisory>, vulnerabilities: seq<Package>)

  function PickAdvisoryId(env: Env, a: Advisory): PyVal {
    var cve := if a.cves == [] then Null else a.cves[0];
    var id := if a.id.Null? then Null else Str(Shown(env, a.id));
    Or(a.githubId, Or(a.url, Or(cve, Or(id, Or(a.title, Or(a.advisory, a.overview))))))
  }

  function AdvisoryTuple(env: Env, a: Advisory): Tuple {
    Tuple(Or(a.moduleName, a.name), a.severity, PickAdvisoryId(env, a),
          Or(a.title, Or(a.advisory, Or(a.overview, a.url))))
  }

  function ItemAdvisory(item: ViaItem): PyVal {
    match item
    case Source(githubId, url, source, title, name, _) => Or(githubId, Or(url, Or(source, Or(title, name))))
    case Named(s) => Str(s)
    case OtherItem => Null
  }

  function ItemTitle(item: ViaItem): PyVal {
    match item
    case Source(_, url, source, title, _, advisory) => Or(title, Or(url, Or(advisory, source)))
    case Named(s) => Str(s)
    case OtherItem => Null
  }

  function ViaItems(via: Via): seq<ViaItem> {
    match via
    case Items(items) => items
    case One(s) => [Named(s)]
    case OtherVia => []
  }

  /** `"; ".join` over the titles that count; `None` is its `TypeError` on a number. */
  function JoinTitles(items: seq<ViaItem>): Option<string> {
    if items == [] then Some("")
    else
      var t, rest := ItemTitle(items[0]), JoinTitles(items[1..]);
      if rest.None? then None
      else if !Truthy(t) then rest
      else if t.Num? then None
      else if rest.value == "" then Some(t.s) else Some(t.s + "; " + rest.value)
  }

  function PackageTuples(p: Package): Option<seq<Tuple>> {
    match JoinTitles(ViaItems(p.via))
    case None => None
    case Some(title) => Some(TuplesOf(p, Str(title), ViaItems(p.via)))
  }

  /** One tuple for each item whose advisory counts, in order. */
  function TuplesOf(p: Package, title: PyVal, items: seq<ViaItem>): seq<Tuple> {
    if items == [] then []
    else
      var a := ItemAdvisory(items[0]);
      (if Truthy(a) then [Tuple(Str(p.name), p.severity, a, title)] else []) + TuplesOf(p, title, items[1..])
  }

  function PackagesStream(ps: seq<Package>): Option<seq<Tuple>> {
    if ps == [] then Some([])
    else match (PackageTuples(ps[0]), PackagesStream(ps[1..]))
      case (Some(a), Some(b)) => Some(a + b)
      case _ => None
  }

  function AdvisoryReader(env: Env): Advisory -> Tuple {
    a => AdvisoryTuple(env, a)
  }

  /** The tuples of the advisories, then those of the packages. */
  function Stream(env: Env, r: Report): Option<seq<Tuple>> {
    match PackagesStream(r.vulnerabilities)
    case None => None
    case Some(ts) => Some(Map(AdvisoryReader(env), r.advisories) + ts)
  }

  // ---------------------------------------------------------------------------
  // What each tuple carries, field by field
  // ---------------------------------------------------------------------------

  /** Python's `x or y or ... or z`: the first choice that counts, or the last one if none does. */
  ghost predicate Picks(v: PyVal, choices: seq<PyVal>) {
    exists k :: 0 <= k < |choices| && FirstChoice(v, choices, k)
  }

  predicate FirstChoice(v: PyVal, choices: seq<PyVal>, k: nat)
    requires k < |choices|
  {
    && v == choices[k]
    && (forall j :: 0 <= j < k ==> choices[j] in [Null, Str(""), Num(0)])
    && (k == |choices| - 1 || choices[k] !in [Null, Str(""), Num(0)])
  }

  lemma PicksLast(a: PyVal)
    ensures Picks(a, [a])
  {
    assert FirstChoice(a, [a], 0);
  }

  lemma PicksOr(a: PyVal, v: PyVal, choices: seq<PyVal>)
    requires Picks(v, choices)
    ensures Picks(Or(a, v), [a] + choices)
  {
    var k :| 0 <= k < |choices| && FirstChoice(v, choices, k);
    var all := [a] + choices;
    if Truthy(a) {
      assert FirstChoice(a, all, 0);
    } else {
      forall j | 0 <= j < k + 1
        ensures all[j] in [Null, Str(""), Num(0)]
      {
        if j > 0 {
          assert all[j] == choices[j - 1];
        }
      }
      assert FirstChoice(v, all, k + 1);
    }
  }

  lemma PicksTwo(a: PyVal, b: PyVal)
    ensures Picks(Or(a, b), [a, b])
  {
    PicksLast(b);
    PicksOr(a, b, [b]);
    assert [a] + [b] == [a, b];
  }

  lemma PicksFour(a: PyVal, b: PyVal, c: PyVal, d: PyVal)
    ensures Picks(Or(a, Or(b, Or(c, d))), [a, b, c, d])
  {
    PicksTwo(c, d);
    PicksOr(b, Or(c, d), [c, d]);
    PicksOr(a, Or(b, Or(c, d)), [b] + [c, d]);
    assert [a] + ([b] + [c, d]) == [a, b, c, d];
  }

  lemma PicksFive(a: PyVal, b: PyVal, c: PyVal, d: PyVal, e: PyVal)
    ensures Picks(Or(a, Or(b, Or(c, Or(d, e)))), [a, b, c, d, e])
  {
    PicksFour(b, c, d, e);
    PicksOr(a, Or(b, Or(c, Or(d, e))), [b, c, d, e]);
    assert [a] + [b, c, d, e] == [a, b, c, d, e];
  }

  lemma PicksSeven(a: PyVal, b: PyVal, c: PyVal, d: PyVal, e: PyVal, f: PyVal, g: PyVal)
    ensures Picks(Or(a, Or(b, Or(c, Or(d, Or(e, Or(f, g)))))), [a, b, c, d, e, f, g])
  {
    PicksFive(c, d, e, f, g);
    hide Or, Picks;
    PicksOr(b, Or(c, Or(d, Or(e, Or(f, g)))), [c, d, e, f, g]);
    PicksOr(a, Or(b, Or(c, Or(d, Or(e, Or(f, g))))), [b] + [c, d, e, f, g]);
    assert [a] + ([b] + [c, d, e, f, g]) == [a, b, c, d, e, f, g];
  }

  /** The tuple of an advisory: its name is the module name or else the name; its severity is copied; its
      advisory is the GitHub id, or else the URL, the first CVE, the id as text, the title, the advisory text or
      the overview; its title is the title, or else the advisory text, the overview or the URL. */
  ghost predicate FromAdvisory(env: Env, a: Advisory, t: Tuple) {
    && Picks(t.name, [a.moduleName, a.name])
    && t.severity == a.severity
    && Picks(t.advisory, [a.githubId, a.url, if a.cves == [] then Null else a.cves[0],
                          match a.id case Null => Null case Str(s) => Str(s) case Num(n) => Str(env.show(n)),
                          a.title, a.advisory, a.overview])
    && Picks(t.title, [a.title, a.advisory, a.overview, a.url])
  }

  lemma AdvisoryFields(env: Env, a: Advisory)
    ensures FromAdvisory(env, a, AdvisoryTuple(env, a))
  {
    var cve := if a.cves == [] then Null else a.cves[0];
    var id := match a.id case Null => Null case Str(s) => Str(s) case Num(n) => Str(env.show(n));
    PicksTwo(a.moduleName, a.name);
    PicksSeven(a.githubId, a.url, cve, id, a.title, a.advisory, a.overview);
    PicksFour(a.title, a.advisory, a.overview, a.url);
    hide Or, Picks;
  }

  /** What a `via` element may be identified by, in order of preference. */
  function AdvisoryChoices(item: ViaItem): seq<PyVal> {
    match item
    case Source(githubId, url, source, title, name, _) => [githubId, url, source, title, name]
    case Named(s) => [Str(s)]
    case OtherItem => [Null]
  }

  /** What it may be called. */
  function TitleChoices(item: ViaItem): seq<PyVal> {
    match item
    case Source(_, url, source, title, _, advisory) => [title, url, advisory, source]
    case Named(s) => [Str(s)]
    case OtherItem => [Null]
  }

  lemma ItemFields(item: ViaItem)
    ensures Picks(ItemAdvisory(item), AdvisoryChoices(item))
    ensures Picks(ItemTitle(item), TitleChoices(item))
  {
    match item {
      case Source(githubId, url, source, title, name, advisory) =>
        PicksFive(githubId, url, source, title, name);
        PicksFour(title, url, advisory, source);
        hide Or, Picks;
      case Named(s) =>
        PicksLast(Str(s));
      case OtherItem =>
        PicksLast(Null);
    }
  }

  /** `"; ".join(texts)` */
  function Joined(texts: seq<string>): string {
    if texts == [] then "" else if |texts| == 1 then texts[0] else texts[0] + "; " + Joined(texts[1..])
  }

  function Counts(): PyVal -> bool {
    (v: PyVal) => v !in [Null, Str(""), Num(0)]
  }

  predicate AllText(vs: seq<PyVal>) {
    forall k :: 0 <= k < |vs| ==> vs[k].Str?
  }

  /** The texts of string values. */
  function Texts(vs: seq<PyVal>): seq<string>
    requires AllText(vs)
  {
    seq(|vs|, k requires 0 <= k < |vs| => vs[k].s)
  }

  /** The items of a package: a lone string stands for itself. */
  ghost predicate ItemsOf(via: Via, items: seq<ViaItem>) {
    match via
    case Items(given) => items == given
    case One(s) => items == [Named(s)]
    case OtherVia => items == []
  }

  /** The tuples of a package: one for each item that is identified at all, in order, by what identifies it; its
      name and severity are the package's, its title joins what the items are called. */
  ghost predicate FromPackage(p: Package, items: seq<ViaItem>, advisories: seq<PyVal>, titles: seq<PyVal>,
                              ts: seq<Tuple>)
  {
    && ItemsOf(p.via, items) && |advisories| == |titles| == |items|
    && (forall k :: 0 <= k < |items| ==> Picks(advisories[k], AdvisoryChoices(items[k])))
    && (forall k :: 0 <= k < |items| ==> Picks(titles[k], TitleChoices(items[k])))
    && var found, called := Filter(Counts(), advisories), Filter(Counts(), titles);
       && |ts| == |found|
       && AllText(called)
       && forall j :: 0 <= j < |ts| ==> ts[j] == Tuple(Str(p.name), p.severity, found[j], Str(Joined(Texts(called))))
  }

  function AdvisoryOf(): ViaItem -> PyVal {
    item => ItemAdvisory(item)
  }

  function TitleOf(): ViaItem -> PyVal {
    item => ItemTitle(item)
  }

  lemma {:induction false} JoinTitlesIs(items: seq<ViaItem>)
    ensures var called := Filter(Counts(), Map(TitleOf(), items));
            && (JoinTitles(items).Some? <==> AllText(called))
            && (JoinTitles(items).Some? ==> JoinTitles(items).value == Joined(Texts(called)))
            && (JoinTitles(items).Some? ==> (JoinTitles(items).value == "" <==> called == []))
  {
    var called := Filter(Counts(), Map(TitleOf(), items));
    if items != [] {
      var t := ItemTitle(items[0]);
      var rest := Filter(Counts(), Map(TitleOf(), items[1..]));
      JoinTitlesIs(items[1..]);
      assert Map(TitleOf(), items)[1..] == Map(TitleOf(), items[1..]);
      assert called == (if Truthy(t) then [t] else []) + rest;
      if Truthy(t) {
        assert called[1..] == rest && called[0] == t;
        JoinCalled(t, rest, called, JoinTitles(items[1..]));
      } else {
        assert [] + rest == rest;
      }
      hide Filter, Joined;
    }
  }

  lemma JoinCalled(t: PyVal, rest: seq<PyVal>, called: seq<PyVal>, joined: Option<string>)
    requires Truthy(t) && called == [t] + rest
    requires joined.Some? <==> AllText(rest)
    requires joined.Some? ==> joined.value == Joined(Texts(rest)) && (joined.value == "" <==> rest == [])
    ensures AllText(called) <==> t.Str? && joined.Some?
    ensures t.Str? && joined.Some? ==>
              && Joined(Texts(called)) == (if joined.value == "" then t.s else t.s + "; " + joined.value)
              && Joined(Texts(called)) != ""
  {
    assert called[0] == t && forall k :: 0 <= k < |rest| ==> rest[k] == called[k + 1];
    if t.Str? && joined.Some? {
      assert Texts(called)[1..] == Texts(rest);
    }
  }

  function TupleWith(p: Package, title: PyVal): PyVal -> Tuple {
    a => Tuple(Str(p.name), p.severity, a, title)
  }

  lemma MapCons<T, R>(f: T -> R, x: T, xs: seq<T>)
    ensures Map(f, [x] + xs) == [f(x)] + Map(f, xs)
  {
  }

  lemma FoundStep(items: seq<ViaItem>)
    requires items != []
    ensures var rest := Filter(Counts(), Map(AdvisoryOf(), items[1..]));
            Filter(Counts(), Map(AdvisoryOf(), items)) ==
            if Truthy(ItemAdvisory(items[0])) then [ItemAdvisory(items[0])] + rest else rest
  {
    assert Map(AdvisoryOf(), items)[1..] == Map(AdvisoryOf(), items[1..]);
    assert [] + Filter(Counts(), Map(AdvisoryOf(), items[1..])) == Filter(Counts(), Map(AdvisoryOf(), items[1..]));
    hide ItemAdvisory;
  }

  lemma {:induction false} TuplesOfIs(p: Package, title: PyVal, items: seq<ViaItem>)
    ensures TuplesOf(p, title, items) == Map(TupleWith(p, title), Filter(Counts(), Map(AdvisoryOf(), items)))
  {
    hide Filter, ItemAdvisory, Truthy;
    if items != [] {
      var rest := Filter(Counts(), Map(AdvisoryOf(), items[1..]));
      TuplesOfIs(p, title, items[1..]);
      FoundStep(items);
      MapCons(TupleWith(p, title), ItemAdvisory(items[0]), rest);
    } else {
      NothingFound();
    }
  }

  lemma NothingFound()
    ensures Filter(Counts(), Map(AdvisoryOf(), [])) == []
  {
  }

  lemma PackageFields(p: Package) returns (items: seq<ViaItem>, advisories: seq<PyVal>, titles: seq<PyVal>)
    ensures PackageTuples(p).Some? ==> FromPackage(p, items, advisories, titles, PackageTuples(p).value)
    ensures PackageTuples(p).None? <==> HasNumber(titles)
    ensures ItemsOf(p.via, items) && |titles| == |items|
    ensures forall k :: 0 <= k < |items| ==> Picks(titles[k], TitleChoices(items[k]))
  {
    items := ViaItems(p.via);
    advisories, titles := Map(AdvisoryOf(), items), Map(TitleOf(), items);
    forall k | 0 <= k < |items|
      ensures Picks(advisories[k], AdvisoryChoices(items[k])) && Picks(titles[k], TitleChoices(items[k]))
    {
      ItemFields(items[k]);
    }
    JoinTitlesIs(items);
    NumberIffNotText(titles);
    hide Picks, Filter, Joined, JoinTitles, TuplesOf;
    if PackageTuples(p).Some? {
      TuplesOfIs(p, Str(JoinTitles(items).value), items);
    }
  }

  /** A number that counts. */
  predicate IsNumber(v: PyVal) {
    v.Num? && v.n != 0
  }

  predicate HasNumber(vs: seq<PyVal>) {
    exists k :: 0 <= k < |vs| && IsNumber(vs[k])
  }

  lemma NumberIffNotText(vs: seq<PyVal>)
    ensures AllText(Filter(Counts(), vs)) <==> !HasNumber(vs)
  {
    var called := Filter(Counts(), vs);
    if HasNumber(vs) {
      var k :| 0 <= k < |vs| && IsNumber(vs[k]);
      assert vs[k] in vs && Counts()(vs[k]);
      var j :| 0 <= j < |called| && called[j] == vs[k];
    }
    if !AllText(called) {
      var k :| 0 <= k < |called| && !called[k].Str?;
      assert called[k] in called;
      var j :| 0 <= j < |vs| && vs[j] == called[k];
      assert IsNumber(vs[j]);
    }
  }

  /** The segments of the stream, package by package. */
  ghost predicate Segments(ps: seq<Package>, segments: seq<seq<Tuple>>) {
    |segments| == |ps| && forall k :: 0 <= k < |ps| ==> SegmentOf(ps[k], segments[k])
  }

  ghost predicate SegmentOf(p: Package, ts: seq<Tuple>) {
    exists items, advisories, titles :: FromPackage(p, items, advisories, titles, ts)
  }

  lemma PackageSegment(p: Package)
    requires PackageTuples(p).Some?
    ensures SegmentOf(p, PackageTuples(p).value)
  {
    var items, advisories, titles := PackageFields(p);
    hide FromPackage, PackageTuples;
  }

  lemma SegmentsSnoc(ps: seq<Package>, front: seq<seq<Tuple>>, last: seq<Tuple>)
    requires ps != [] && Segments(ps[..|ps| - 1], front) && SegmentOf(ps[|ps| - 1], last)
    ensures Segments(ps, front + [last])
  {
    hide SegmentOf;
  }

  lemma LastPackage(ps: seq<Package>)
    requires ps != [] && PackagesStream(ps).Some?
    ensures PackagesStream(ps[..|ps| - 1]).Some? && PackageTuples(ps[|ps| - 1]).Some?
    ensures PackagesStream(ps).value == PackagesStream(ps[..|ps| - 1]).value + PackageTuples(ps[|ps| - 1]).value
  {
    hide PackageTuples, PackagesStream;
    var n := |ps| - 1;
    assert ps == ps[..n] + [ps[n]];
    PackagesConcat(ps[..n], [ps[n]]);
    OnePackage(ps[n]);
  }

  lemma {:induction false} PackagesSegments(ps: seq<Package>) returns (segments: seq<seq<Tuple>>)
    requires PackagesStream(ps).Some?
    ensures Segments(ps, segments) && PackagesStream(ps).value == Concat(segments)
    decreases |ps|
  {
    if ps == [] {
      segments := [];
    } else {
      hide PackageTuples, PackagesStream, Segments, SegmentOf, Concat;
      var n := |ps| - 1;
      LastPackage(ps);
      var front := PackagesSegments(ps[..n]);
      PackageSegment(ps[n]);
      segments := front + [PackageTuples(ps[n]).value];
      ConcatSnoc(front, PackageTuples(ps[n]).value);
      SegmentsSnoc(ps, front, PackageTuples(ps[n]).value);
    }
  }

  /** The whole stream, field by field: one tuple for each advisory, then the segments of the packages. */
  lemma StreamFields(env: Env, r: Report) returns (segments: seq<seq<Tuple>>)
    requires Stream(env, r).Some?
    ensures |Stream(env, r).value| >= |r.advisories|
    ensures forall i :: 0 <= i < |r.advisories| ==> FromAdvisory(env, r.advisories[i], Stream(env, r).value[i])
    ensures Segments(r.vulnerabilities, segments)
    ensures Stream(env, r).value[|r.advisories|..] == Concat(segments)
  {
    segments := PackagesSegments(r.vulnerabilities);
    hide FromAdvisory, Segments, PackagesStream, AdvisoryTuple;
    forall i | 0 <= i < |r.advisories|
      ensures FromAdvisory(env, r.advisories[i], Stream(env, r).value[i])
    {
      AdvisoryFields(env, r.advisories[i]);
    }
  }

  lemma {:induction false} PackagesFailIff(ps: seq<Package>)
    ensures PackagesStream(ps).None? <==> exists k :: 0 <= k < |ps| && PackageTuples(ps[k]).None?
  {
    hide PackageTuples;
    if ps != [] {
      PackagesFailIff(ps[1..]);
      assert forall k :: 0 < k < |ps| ==> ps[k] == ps[1..][k - 1];
      if PackageTuples(ps[0]).None? {
        assert 0 <= 0 < |ps| && PackageTuples(ps[0]).None?;
      }
    }
  }

  /** Walking the report raises exactly when some item of some package is called by a number. */
  ghost predicate NumberedTitle(p: Package) {
    exists items, k, v ::
      ItemsOf(p.via, items) && 0 <= k < |items| && Picks(v, TitleChoices(items[k])) && IsNumber(v)
  }

  lemma PicksOne(v: PyVal, w: PyVal, choices: seq<PyVal>)
    requires Picks(v, choices) && Picks(w, choices)
    ensures v == w
  {
    var i :| 0 <= i < |choices| && FirstChoice(v, choices, i);
    var j :| 0 <= j < |choices| && FirstChoice(w, choices, j);
  }

  lemma StreamFailsIff(env: Env, r: Report)
    ensures Stream(env, r).None? <==>
            exists k :: 0 <= k < |r.vulnerabilities| && NumberedTitle(r.vulnerabilities[k])
  {
    PackagesFailIff(r.vulnerabilities);
    forall k | 0 <= k < |r.vulnerabilities|
      ensures PackageTuples(r.vulnerabilities[k]).None? <==> NumberedTitle(r.vulnerabilities[k])
    {
      PackageFailsIff(r.vulnerabilities[k]);
    }
    hide PackageTuples, NumberedTitle;
  }

  lemma PackageFailsIff(p: Package)
    ensures PackageTuples(p).None? <==> NumberedTitle(p)
  {
    var items, advisories, titles := PackageFields(p);
    hide PackageTuples, FromPackage;
    if HasNumber(titles) {
      var k :| 0 <= k < |titles| && IsNumber(titles[k]);
      assert ItemsOf(p.via, items) && Picks(titles[k], TitleChoices(items[k]));
    }
    if NumberedTitle(p) {
      var its, k, v :| ItemsOf(p.via, its) && 0 <= k < |its| && Picks(v, TitleChoices(its[k])) && IsNumber(v);
      assert its == items;
      PicksOne(v, titles[k], TitleChoices(items[k]));
    }
  }

  method IterPackage(p: Package) returns (r: Option<seq<Tuple>>)
    ensures r == PackageTuples(p)
  {
    var items := ViaItems(p.via);
    var title := JoinTitles(items);
    if title.None? {
      return None;
    }
    var tuples: seq<Tuple> := [];
    assert items[0..] == items;
    for i := 0 to |items|
      invariant tuples + TuplesOf(p, Str(title.value), items[i..]) == TuplesOf(p, Str(title.value), items)
    {
      assert items[i..][1..] == items[i + 1..];
      var a := ItemAdvisory(items[i]);
      if Truthy(a) {
        tuples := tuples + [Tuple(Str(p.name), p.severity, a, Str(title.value))];
      }
    }
    assert items[|items|..] == [] && tuples + [] == tuples;
    r := Some(tuples);
  }

  method IterVulns(env: Env, report: Report) returns (r: Option<seq<Tuple>>)
    ensures r == Stream(env, report)
  {
    hide PackageTuples, AdvisoryTuple;
    var tuples: seq<Tuple> := [];
    var advs, ps := report.advisories, report.vulnerabilities;
    for i := 0 to |advs|
      invariant tuples == Map(AdvisoryReader(env), advs[..i])
    {
      assert advs[..i + 1] == advs[..i] + [advs[i]];
      tuples := tuples + [AdvisoryTuple(env, advs[i])];
    }
    assert advs[..|advs|] == advs;
    ghost var head := tuples;
    ghost var whole := PackagesStream(ps);
    assert ps[0..] == ps;
    for i := 0 to |ps|
      invariant whole.Some? <==> PackagesStream(ps[i..]).Some?
      invariant whole.Some? ==> tuples + PackagesStream(ps[i..]).value == head + whole.value
    {
      assert ps[i..][1..] == ps[i + 1..];
      var more := IterPackage(ps[i]);
      if more.None? {
        return None;
      }
      tuples := tuples + more.value;
    }
    assert ps[|ps|..] == [] && tuples + [] == tuples;
    r := Some(tuples);
  }

  // ---------------------------------------------------------------------------
  // The whole run
  // ---------------------------------------------------------------------------

  lemma FatalTuples(env: Env, tuples: seq<Tuple>)
    ensures (exists u :: u in Map(TupleReader(env), tuples) && u.Fatal?) <==>
            exists t :: t in tuples && NormalizeSeverity(env, t.severity).None?
  {
    hide NormalizeSeverity, NormalizePackage, NormalizeAdvisory;
    var vulns := Map(TupleReader(env), tuples);
    forall i | 0 <= i < |tuples|
      ensures vulns[i].Fatal? <==> NormalizeSeverity(env, tuples[i].severity).None?
    {
      ReadTupleShape(env, tuples[i]);
    }
    if t :| t in tuples && NormalizeSeverity(env, t.severity).None? {
      var i :| 0 <= i < |tuples| && tuples[i] == t;
      assert vulns[i] in vulns;
    }
  }

  /** From the two inputs to the exit code: 0 exactly when the exception file parses, the report
      can be walked, and the gate passes; an uncaught exception exactly when the file does not parse, the
      report cannot be walked, or some severity in it is a number. */
  method RunGate(env: Env, text: string, report: Report, today: int) returns (v: Verdict<Record, Tuple>)
    ensures v.Validated? <==>
            && ExceptionParser.ParseText(text).Records?
            && Stream(env, report).Some?
            && GatePasses(env, ExceptionParser.ParseText(text).records, Stream(env, report).value, today)
    ensures v.Crash? <==>
            || ExceptionParser.ParseText(text).Crashed?
            || Stream(env, report).None?
            || exists t :: t in Stream(env, report).value && NormalizeSeverity(env, t.severity).None?
  {
    hide NormalizeSeverity, NormalizePackage, NormalizeAdvisory;
    var parsed := ExceptionParser.ParseExceptions(text);
    if parsed.Crashed? {
      return Crash;
    }
    var tuples := IterVulns(env, report);
    if tuples.None? {
      return Crash;
    }
    FatalTuples(env, tuples.value);
    hide Stream, ExceptionParser.ParseText, GatePasses, ReadTuple;
    v := Decide(Map(ExceptionReader(env), parsed.records), Map(TupleReader(env), tuples.value), today);
  }

  // ---------------------------------------------------------------------------
  // The meaning in terms of the raw inputs
  // ---------------------------------------------------------------------------

  ghost predicate RecordsMeaning(env: Env, records: seq<Record>) {
    && (forall i :: 0 <= i < |records| ==>
          && Complete(records[i]) && RecordDate(env, records[i]).Some? && !BlankPart(RecordKey(env, records[i])))
    && forall i, j :: 0 <= i < j < |records| ==> RecordKey(env, records[i]) != RecordKey(env, records[j])
  }

  ghost predicate TuplesMeaning(env: Env, tuples: seq<Tuple>) {
    forall i :: 0 <= i < |tuples| ==>
      && NormalizeSeverity(env, tuples[i].severity).Some?
      && (Relevant(env, tuples[i]) ==> NormalizeAdvisory(env, tuples[i].advisory) != "")
  }

  /** Relevant, and no earlier relevant tuple has the same key. */
  ghost predicate FirstRelevant(env: Env, tuples: seq<Tuple>, i: nat)
    requires i < |tuples|
  {
    && Relevant(env, tuples[i])
    && forall j :: 0 <= j < i && Relevant(env, tuples[j]) ==> TupleKey(env, tuples[j]) != TupleKey(env, tuples[i])
  }

  predicate Excuses(env: Env, e: Record, t: Tuple, today: int) {
    && RecordKey(env, e) == TupleKey(env, t)
    && (RecordSeverity(env, e) == "" || Some(RecordSeverity(env, e)) == NormalizeSeverity(env, t.severity))
    && RecordDate(env, e).Some? && today <= RecordDate(env, e).value
  }

  ghost predicate Excused(env: Env, records: seq<Record>, t: Tuple, today: int) {
    exists k :: 0 <= k < |records| && Excuses(env, records[k], t, today)
  }

  lemma ReadTupleShape(env: Env, t: Tuple)
    ensures ReadTuple(env, t).Fatal? <==> NormalizeSeverity(env, t.severity).None?
    ensures ReadTuple(env, t).Live? <==> Relevant(env, t) && NormalizeAdvisory(env, t.advisory) != ""
    ensures ReadTuple(env, t).NoAdvisory? <==> Relevant(env, t) && NormalizeAdvisory(env, t.advisory) == ""
    ensures ReadTuple(env, t).Live? ==>
              ReadTuple(env, t).key == TupleKey(env, t) &&
              Some(ReadTuple(env, t).severity) == NormalizeSeverity(env, t.severity)
  {
    hide NormalizePackage, NormalizeAdvisory, NormalizeSeverity;
  }

  lemma RecordsMeaningOk(env: Env, records: seq<Record>)
    ensures ExceptionsOk(Map(ExceptionReader(env), records)) <==> RecordsMeaning(env, records)
  {
    hide NormalizePackage;
    hide NormalizeAdvisory;
    hide Strip;
    hide Complete;
    var excs := Map(ExceptionReader(env), records);
    assert forall i :: 0 <= i < |records| ==> excs[i] == ReadException(env, records[i]);
  }

  lemma TuplesMeaningOk(env: Env, tuples: seq<Tuple>)
    ensures StreamOk(Map(TupleReader(env), tuples)) <==> TuplesMeaning(env, tuples)
  {
    hide NormalizePackage;
    hide NormalizeAdvisory;
    hide NormalizeSeverity;
    hide Strip;
    var vulns := Map(TupleReader(env), tuples);
    forall i | 0 <= i < |tuples|
      ensures (vulns[i].Ignored? || vulns[i].Live?) <==>
              (NormalizeSeverity(env, tuples[i].severity).Some? &&
               (Relevant(env, tuples[i]) ==> NormalizeAdvisory(env, tuples[i].advisory) != ""))
    {
      ReadTupleShape(env, tuples[i]);
    }
    assert forall i :: 0 <= i < |vulns| ==> vulns[i] in vulns;
  }

  lemma FirstRelevantOk(env: Env, tuples: seq<Tuple>, i: nat)
    requires i < |tuples| && TuplesMeaning(env, tuples)
    ensures FirstOfKey(Map(TupleReader(env), tuples), i) <==> FirstRelevant(env, tuples, i)
  {
    hide NormalizePackage;
    hide NormalizeAdvisory;
    hide NormalizeSeverity;
    hide Strip;
    var vulns := Map(TupleReader(env), tuples);
    forall j | 0 <= j <= i
      ensures vulns[j].Live? <==> Relevant(env, tuples[j])
      ensures vulns[j].Live? ==> vulns[j].key == TupleKey(env, tuples[j])
    {
      ReadTupleShape(env, tuples[j]);
    }
  }

  lemma ExcusedOk(env: Env, records: seq<Record>, t: Tuple, today: int)
    requires RecordsMeaning(env, records) && ReadTuple(env, t).Live?
    ensures Covered(Map(ExceptionReader(env), records), ReadTuple(env, t), today) <==> Excused(env, records, t, today)
  {
    hide NormalizePackage;
    hide NormalizeAdvisory;
    hide NormalizeSeverity;
    hide Strip;
    hide Complete;
    var excs := Map(ExceptionReader(env), records);
    ReadTupleShape(env, t);
    forall k | 0 <= k < |records|
      ensures Covers(excs[k], ReadTuple(env, t), today) <==> Excuses(env, records[k], t, today)
    {
      assert excs[k] == ReadException(env, records[k]);
    }
    if Covered(excs, ReadTuple(env, t), today) {
      var e :| e in excs && Covers(e, ReadTuple(env, t), today);
    }
    if Excused(env, records, t, today) {
      var k :| 0 <= k < |records| && Excuses(env, records[k], t, today);
      assert excs[k] in excs;
    }
  }

  /** The gate passes iff all exceptions are complete, dated, non-blank and pairwise distinct by
      normalised key, every high or critical tuple with a name has a non-blank advisory, and the
      first tuple of each key has an exception that is unexpired and whose normalised severity is
      blank or equal. */
  lemma GateMeaning(env: Env, records: seq<Record>, tuples: seq<Tuple>, today: int)
    ensures GatePasses(env, records, tuples, today) <==>
            && RecordsMeaning(env, records)
            && TuplesMeaning(env, tuples)
            && forall i :: 0 <= i < |tuples| && FirstRelevant(env, tuples, i) ==>
                 Excused(env, records, tuples[i], today)
  {
    hide NormalizePackage;
    hide NormalizeAdvisory;
    hide NormalizeSeverity;
    hide Strip;
    hide Complete;
    hide ReadTuple;
    hide ReadException;
    var excs, vulns := Map(ExceptionReader(env), records), Map(TupleReader(env), tuples);
    RecordsMeaningOk(env, records);
    TuplesMeaningOk(env, tuples);
    if RecordsMeaning(env, records) && TuplesMeaning(env, tuples) {
      forall i | 0 <= i < |tuples|
        ensures FirstOfKey(vulns, i) <==> FirstRelevant(env, tuples, i)
        ensures FirstOfKey(vulns, i) ==> (Covered(excs, vulns[i], today) <==> Excused(env, records, tuples[i], today))
      {
        FirstRelevantOk(env, tuples, i);
        if FirstOfKey(vulns, i) {
          ExcusedOk(env, records, tuples[i], today);
        }
      }
    }
  }

  // ---------------------------------------------------------------------------
  // What the verdict depends on, for the raw inputs
  // ---------------------------------------------------------------------------

  /** Reordering the records of the exception file never changes the verdict. */
  lemma RecordOrderIrrelevant(env: Env, a: seq<Record>, b: seq<Record>, tuples: seq<Tuple>, today: int)
    requires multiset(a) == multiset(b)
    ensures GatePasses(env, a, tuples, today) <==> GatePasses(env, b, tuples, today)
  {
    MapPermuted(ExceptionReader(env), a, b);
    AuditTheorems.ExceptionOrderIrrelevant(Map(ExceptionReader(env), a), Map(ExceptionReader(env), b),
                                           Map(TupleReader(env), tuples), today);
  }

  /** Relevant tuples with the same key agree on their normalised severity. */
  ghost predicate SameSeverity(env: Env, tuples: seq<Tuple>) {
    forall t, u :: t in tuples && u in tuples && Relevant(env, t) && Relevant(env, u) &&
                   TupleKey(env, t) == TupleKey(env, u) ==>
                   NormalizeSeverity(env, t.severity) == NormalizeSeverity(env, u.severity)
  }

  lemma SameSeverityAgrees(env: Env, tuples: seq<Tuple>)
    requires SameSeverity(env, tuples)
    ensures AuditTheorems.SeveritiesAgree(Map(TupleReader(env), tuples))
  {
    var vulns := Map(TupleReader(env), tuples);
    forall i, j | 0 <= i < |vulns| && 0 <= j < |vulns| && vulns[i].Live? && vulns[j].Live? &&
                  vulns[i].key == vulns[j].key
      ensures vulns[i].severity == vulns[j].severity
    {
      ReadTupleShape(env, tuples[i]);
      ReadTupleShape(env, tuples[j]);
      assert tuples[i] in tuples && tuples[j] in tuples;
    }
  }

  /** Reordering the tuples of a report in which relevant tuples with the same key agree on their
      severity never changes the verdict. */
  lemma TupleOrderIrrelevant(env: Env, records: seq<Record>, a: seq<Tuple>, b: seq<Tuple>, today: int)
    requires multiset(a) == multiset(b) && SameSeverity(env, a)
    ensures GatePasses(env, records, a, today) <==> GatePasses(env, records, b, today)
  {
    MapPermuted(TupleReader(env), a, b);
    SameSeverityAgrees(env, a);
    AuditTheorems.TupleOrderIrrelevant(Map(ExceptionReader(env), records), Map(TupleReader(env), a),
                                       Map(TupleReader(env), b), today);
  }

  /** Where severities disagree the order of the report decides: if one package and advisory is reported as
      high and as critical, an exception for high passes with the high tuple first and fails with the
      critical tuple first. */
  lemma FirstSeverityDecides(env: Env, e: Record, high: Tuple, critical: Tuple, today: int)
    requires ReadException(env, e).Good? && RecordSeverity(env, e) == "high" && Excuses(env, e, high, today)
    requires Truthy(high.name) && Truthy(critical.name) && TupleKey(env, critical) == TupleKey(env, high)
    requires NormalizeSeverity(env, high.severity) == Some("high")
    requires NormalizeSeverity(env, critical.severity) == Some("critical")
    ensures GatePasses(env, [e], [high, critical], today)
    ensures !GatePasses(env, [e], [critical, high], today)
  {
    ReadTupleShape(env, high);
    ReadTupleShape(env, critical);
    hide NormalizePackage, NormalizeAdvisory, NormalizeSeverity, Strip, Complete, ReadTuple;
    var x, h, c := ReadException(env, e), ReadTuple(env, high), ReadTuple(env, critical);
    assert Map(ExceptionReader(env), [e]) == [x];
    assert Map(TupleReader(env), [high, critical]) == [h, c];
    assert Map(TupleReader(env), [critical, high]) == [c, h];
    AuditTheorems.FirstSeverityDecides(x, h, c, today);
  }

  /** An exception as it stands in the file. */
  function RecordFor(package: string, advisory: string, severity: string, mitigation: string, expires: string): Record {
    map["package" := package, "advisory" := advisory, "severity" := severity, "mitigation" := mitigation,
        "expires_on" := expires]
  }

  lemma RecordForFields(p: string, a: string, s: string, m: string, d: string)
    ensures var e := RecordFor(p, a, s, m, d);
            && "package" in e && e["package"] == p && "advisory" in e && e["advisory"] == a
            && "severity" in e && e["severity"] == s && "mitigation" in e && e["mitigation"] == m
            && "expires_on" in e && e["expires_on"] == d
  {
  }

  /** A string that the normalisers leave alone. */
  predicate Normal(env: Env, s: string) {
    s != "" && Trimmed(s) && env.lower(s) == s
  }

  lemma NormalStrings(env: Env, s: string)
    requires Normal(env, s)
    ensures NormalizePackage(env, Str(s)) == s && NormalizeAdvisory(env, Str(s)) == s
    ensures NormalizeSeverity(env, Str(s)) == Some(s)
  {
    StripTrimmed(s);
    hide Strip;
  }

  lemma NormalException(env: Env, p: string, a: string, s: string, m: string, d: string)
    requires Normal(env, p) && Normal(env, a) && Normal(env, s) && m != "" && d != "" && env.parseDate(d).Some?
    ensures var e := RecordFor(p, a, s, m, d);
            && ReadException(env, e).Good? && RecordKey(env, e) == (p, a) && RecordSeverity(env, e) == s
            && RecordDate(env, e) == env.parseDate(d)
  {
    var e := RecordFor(p, a, s, m, d);
    RecordForFields(p, a, s, m, d);
    StripTrimmed(p);
    StripTrimmed(a);
    StripTrimmed(s);
    hide Strip, RecordFor, Complete, ReadException, RecordKey, RecordSeverity, RecordDate;
    RecordReads(env, e, p, a, s);
    CompleteIff(e);
    ReadsException(env, e);
  }

  /** A concrete input: `lodash` with advisory `1065`, reported as high and as critical, and an exception for
      high. It passes on every day up to the expiry in one order, and on no such day in the other. */
  lemma TupleOrderMatters(env: Env, today: int)
    requires Normal(env, "lodash") && Normal(env, "1065") && Normal(env, "high") && Normal(env, "critical")
    requires env.parseDate("2030-01-01").Some? && today <= env.parseDate("2030-01-01").value
    ensures var e := RecordFor("lodash", "1065", "high", "pinned", "2030-01-01");
            var high := Tuple(Str("lodash"), Str("high"), Str("1065"), Null);
            var critical := Tuple(Str("lodash"), Str("critical"), Str("1065"), Null);
            GatePasses(env, [e], [high, critical], today) && !GatePasses(env, [e], [critical, high], today)
  {
    OrderMattersFor(env, "lodash", "1065", "high", "critical", "pinned", "2030-01-01", today);
  }

  lemma OrderMattersFor(env: Env, p: string, a: string, s: string, t: string, m: string, d: string, today: int)
    requires Normal(env, p) && Normal(env, a) && Normal(env, s) && Normal(env, t) && s == "high" && t == "critical"
    requires m != "" && d != "" && env.parseDate(d).Some? && today <= env.parseDate(d).value
    ensures var e := RecordFor(p, a, s, m, d);
            var high, critical := Tuple(Str(p), Str(s), Str(a), Null), Tuple(Str(p), Str(t), Str(a), Null);
            GatePasses(env, [e], [high, critical], today) && !GatePasses(env, [e], [critical, high], today)
  {
    NormalException(env, p, a, s, m, d);
    NormalStrings(env, p);
    NormalStrings(env, a);
    NormalStrings(env, s);
    NormalStrings(env, t);
    hide Strip, NormalizePackage, NormalizeAdvisory, NormalizeSeverity, RecordFor, ReadException, RecordKey,
         RecordSeverity, RecordDate, GatePasses, Normal;
    FirstSeverityDecides(env, RecordFor(p, a, s, m, d), Tuple(Str(p), Str(s), Str(a), Null),
                         Tuple(Str(p), Str(t), Str(a), Null), today);
  }

  /** The days on which given inputs pass form an initial segment. */
  lemma DateThreshold(env: Env, records: seq<Record>, tuples: seq<Tuple>, day: int, today: int)
    requires GatePasses(env, records, tuples, day)
    ensures GatePasses(env, records, tuples, today) <==>
            AuditTheorems.NotAfter(today, AuditTheorems.EarliestExpiry(Map(ExceptionReader(env), records),
                                                                       Map(TupleReader(env), tuples)))
  {
    AuditTheorems.DateThreshold(Map(ExceptionReader(env), records), Map(TupleReader(env), tuples), day, today);
  }

  // ---------------------------------------------------------------------------
  // What the report must contain for a package to be seen at all
  // ---------------------------------------------------------------------------

  predicate Identified(p: Package) {
    exists i :: 0 <= i < |ViaItems(p.via)| && Truthy(ItemAdvisory(ViaItems(p.via)[i]))
  }

  lemma {:induction false} TuplesOfEmpty(p: Package, title: PyVal, items: seq<ViaItem>)
    ensures TuplesOf(p, title, items) == [] <==> forall i :: 0 <= i < |items| ==> !Truthy(ItemAdvisory(items[i]))
  {
    if items != [] {
      TuplesOfEmpty(p, title, items[1..]);
      assert forall i :: 0 < i < |items| ==> items[i] == items[1..][i - 1];
      if TuplesOf(p, title, items) == [] {
        assert !Truthy(ItemAdvisory(items[0]));
      }
    }
  }

  lemma {:induction false} PackagesConcat(a: seq<Package>, b: seq<Package>)
    ensures PackagesStream(a + b) ==
            if PackagesStream(a).Some? && PackagesStream(b).Some?
            then Some(PackagesStream(a).value + PackagesStream(b).value) else None
  {
    if a == [] {
      assert a + b == b;
      assert PackagesStream(b).Some? ==> [] + PackagesStream(b).value == PackagesStream(b).value;
    } else {
      assert (a + b)[1..] == a[1..] + b;
      PackagesConcat(a[1..], b);
      if PackageTuples(a[0]).Some? && PackagesStream(a[1..]).Some? && PackagesStream(b).Some? {
        var (x, y, z) := (PackageTuples(a[0]).value, PackagesStream(a[1..]).value, PackagesStream(b).value);
        assert x + (y + z) == (x + y) + z;
      }
    }
  }

  /** "Every high or critical package needs an exception" is not what the code does: a package none
      of whose `via` items identifies an advisory yields no tuple, so the stream, and with it the
      verdict, is the same with and without it, whatever its severity. Exactly such packages are
      invisible. */
  lemma UnidentifiedPackageInvisible(env: Env, advs: seq<Advisory>, a: seq<Package>, p: Package, b: seq<Package>)
    requires Stream(env, Report(advs, a + [p] + b)).Some?
    ensures Stream(env, Report(advs, a + b)).Some?
    ensures Stream(env, Report(advs, a + [p] + b)) == Stream(env, Report(advs, a + b)) <==> !Identified(p)
  {
    hide PackageTuples, AdvisoryTuple;
    PackagesConcat(a + [p], b);
    PackagesConcat(a, [p]);
    PackagesConcat(a, b);
    OnePackage(p);
    var (x, y, z) := (PackagesStream(a).value, PackagesStream([p]).value, PackagesStream(b).value);
    InsertedNothing(Map(AdvisoryReader(env), advs), x, y, z);
  }

  /** A concrete input: a report whose only content is a critical `lodash` without any `via` passes the gate on
      every day, without a single exception. */
  lemma InvisibleCritical(env: Env, today: int)
    ensures var report := Report([], [Package("lodash", Str("critical"), Items([]))]);
            Stream(env, report) == Some([]) && GatePasses(env, [], [], today)
  {
    var p := Package("lodash", Str("critical"), Items([]));
    OnePackage(p);
    assert PackageTuples(p) == Some([]);
    assert Map(AdvisoryReader(env), []) == [] && Map(TupleReader(env), []) == [] && Map(ExceptionReader(env), []) == [];
  }

  lemma OnePackage(p: Package)
    ensures PackagesStream([p]) == PackageTuples(p)
    ensures PackageTuples(p).Some? ==> (PackageTuples(p).value == [] <==> !Identified(p))
  {
    assert [p][1..] == [];
    if PackageTuples(p).Some? {
      assert PackageTuples(p).value + [] == PackageTuples(p).value;
      TuplesOfEmpty(p, Str(JoinTitles(ViaItems(p.via)).value), ViaItems(p.via));
    }
  }

  lemma InsertedNothing<T>(head: seq<T>, x: seq<T>, y: seq<T>, z: seq<T>)
    ensures head + ((x + y) + z) == head + (x + z) <==> y == []
  {
    assert |head + ((x + y) + z)| == |head + (x + z)| + |y|;
    if y == [] {
      assert x + y == x;
    }
  }
}
