/** The exact-model availability cache: which entries are eligible and in which order,
    materializing a cache from a provider result, planning its refresh, and the two
    revalidations. */
module AvailabilityCache {
  import opened Collections
  import opened StableSort
  import opened Texts
  import opened Checks

  /** The seven values a cache is bound to. */
  datatype Context = Context(
    localDate: Text, profileRef: Text, opencodeRef: Text, packageRef: Text,
    registryHash: Text, policyHash: Text, authRef: Text)

  datatype ContextField = LocalDate | Profile | OpencodeVersion | PackageVersion | Registry | PolicyPack | AuthBoundary

  const FIELDS: seq<ContextField> :=
    [LocalDate, Profile, OpencodeVersion, PackageVersion, Registry, PolicyPack, AuthBoundary]

  function Field(x: Context, f: ContextField): Text
  {
    match f
    case LocalDate => x.localDate
    case Profile => x.profileRef
    case OpencodeVersion => x.opencodeRef
    case PackageVersion => x.packageRef
    case Registry => x.registryHash
    case PolicyPack => x.policyHash
    case AuthBoundary => x.authRef
  }

  function Differs(a: Context, b: Context): ContextField -> bool
  {
    f => Field(a, f) != Field(b, f)
  }

  /** The fields in which two contexts differ, in the order they are compared. */
  function Drift(a: Context, b: Context): seq<ContextField>
  {
    Filter(Differs(a, b), FIELDS)
  }

  lemma IsAField(f: ContextField)
    ensures f in FIELDS
  {
  }

  lemma DriftMeans(a: Context, b: Context)
    ensures forall f :: f in Drift(a, b) <==> Field(a, f) != Field(b, f)
    ensures Drift(a, b) == [] <==> a == b
  {
    FilterMembers(Differs(a, b), FIELDS);
    forall f: ContextField
      ensures f in FIELDS
    {
      IsAField(f);
    }
    if Drift(a, b) == [] {
      assert forall f :: !Differs(a, b)(f);
      assert !Differs(a, b)(LocalDate) && !Differs(a, b)(Profile) && !Differs(a, b)(OpencodeVersion);
      assert !Differs(a, b)(PackageVersion) && !Differs(a, b)(Registry) && !Differs(a, b)(PolicyPack);
      assert !Differs(a, b)(AuthBoundary);
    } else {
      assert Drift(a, b)[0] in Drift(a, b);
    }
  }

  datatype Entry = Entry(
    id: Text, family: Text, identityRef: Text, model: Text, modelFamily: Text,
    registered: bool, available: bool, highestTier: bool, availabilityRef: Text)

  datatype Cache = Cache(id: Text, context: Context, entries: seq<Entry>)

  /** `familyOf` says that a provider family is eligible and the one the model names;
      `collate` is the locale order of the sort keys. */
  datatype CacheChecks = CacheChecks(fields: FieldChecks, familyOf: (Text, Text) -> bool, collate: (Text, Text) -> bool)

  predicate ValidContext(c: FieldChecks, x: Context)
  {
    && c.localDate(x.localDate) && c.opaqueId(x.profileRef) && c.opaqueId(x.opencodeRef) && c.opaqueId(x.packageRef)
    && c.hashRef(x.registryHash) && c.hashRef(x.policyHash) && c.opaqueId(x.authRef)
  }

  /** The payload scan of a context: refs are exempt, date and hashes are not. */
  predicate ScannedContext(c: FieldChecks, x: Context)
  {
    c.clean(x.localDate) && c.clean(x.registryHash) && c.clean(x.policyHash)
  }

  predicate ValidEntry(c: CacheChecks, e: Entry)
  {
    && c.fields.opaqueId(e.id) && c.familyOf(e.family, e.model) && c.fields.opaqueId(e.identityRef)
    && c.fields.model(e.model) && c.fields.opaqueId(e.modelFamily) && c.fields.opaqueId(e.availabilityRef)
    && c.fields.clean(e.family) && c.fields.clean(e.modelFamily)
  }

  /** The cache validator. Entry ids need not be distinct. */
  predicate ValidCache(c: CacheChecks, cache: Cache)
  {
    && c.fields.opaqueId(cache.id) && ValidContext(c.fields, cache.context) && ScannedContext(c.fields, cache.context)
    && cache.entries != [] && forall e :: e in cache.entries ==> ValidEntry(c, e)
  }

  // ---- Eligible entries ------------------------------------------------------

  datatype Pressure = Ok | Warning | Critical | Exhausted | UnknownPressure

  function PressureRank(pressure: Option<Pressure>): nat
  {
    match pressure
    case Some(Ok) => 0
    case Some(Warning) => 1
    case Some(Critical) => 2
    case Some(Exhausted) => 3
    case Some(UnknownPressure) => 4
    case None => 5
  }

  /** Position in the preference list, or its length. */
  function PreferenceRank(family: Text, preferred: seq<Text>): nat
  {
    if preferred == [] || preferred[0] == family then 0 else 1 + PreferenceRank(family, preferred[1..])
  }

  datatype Inclusion = Included | Excluded | Barred

  /** The predicate state of one entry. */
  function InclusionOf(staleOrInvalid: bool, e: Entry): Inclusion
  {
    if staleOrInvalid then Barred
    else if !e.registered then Barred
    else if !e.available then Excluded
    else if !e.highestTier then Excluded
    else Included
  }

  predicate StaleOrInvalid(c: CacheChecks, cache: Cache, localDate: Text)
  {
    !ValidCache(c, cache) || cache.context.localDate != localDate
  }

  /** The ids of the included states. */
  function IncludedIds(c: CacheChecks, cache: Cache): set<Text>
  {
    set e | e in cache.entries && InclusionOf(StaleOrInvalid(c, cache, cache.context.localDate), e).Included? :: e.id
  }

  datatype Preferences = Preferences(usage: map<Text, Pressure>, families: seq<Text>)

  const NO_PREFERENCES := Preferences(map[], [])

  function UsageOf(p: Preferences, e: Entry): Option<Pressure>
  {
    if e.id in p.usage then Some(p.usage[e.id]) else None
  }

  const SLASH: CodeUnit := 47

  function Key(e: Entry): Text
  {
    e.family + [SLASH] + e.model + [SLASH] + e.id
  }

  /** The comparator: family preference, then usage pressure, then key. */
  predicate Before(c: CacheChecks, p: Preferences, a: Entry, b: Entry)
  {
    var fa, fb := PreferenceRank(a.modelFamily, p.families), PreferenceRank(b.modelFamily, p.families);
    var ua, ub := PressureRank(UsageOf(p, a)), PressureRank(UsageOf(p, b));
    fa < fb || (fa == fb && (ua < ub || (ua == ub && c.collate(Key(a), Key(b)))))
  }

  function Eligible(c: CacheChecks, cache: Cache, p: Preferences): seq<Entry>
  {
    var ids := IncludedIds(c, cache);
    Sort((a, b) => Before(c, p, a, b), Filter((e: Entry) => e.id in ids, cache.entries))
  }

  predicate Qualified(e: Entry)
  {
    e.registered && e.available && e.highestTier
  }

  ghost predicate UniqueIds(entries: seq<Entry>)
  {
    forall i, j :: 0 <= i < j < |entries| ==> entries[i].id != entries[j].id
  }

  lemma EligibleMembers(c: CacheChecks, cache: Cache, p: Preferences, e: Entry)
    ensures e in Eligible(c, cache, p) <==>
      ValidCache(c, cache) && e in cache.entries && exists q :: q in cache.entries && Qualified(q) && q.id == e.id
  {
    var ids := IncludedIds(c, cache);
    var kept := Filter((x: Entry) => x.id in ids, cache.entries);
    var order := (a, b) => Before(c, p, a, b);
    FilterMembers((x: Entry) => x.id in ids, cache.entries);
    SortPermutes(order, kept);
    PermutationMembers(kept, Sort(order, kept));
  }

  /** Only qualified entries get through exactly when no unqualified entry shares its id
      with a qualified one; distinct ids are enough. */
  lemma EligibleExactly(c: CacheChecks, cache: Cache, p: Preferences)
    requires ValidCache(c, cache)
    ensures (forall e :: e in Eligible(c, cache, p) <==> e in cache.entries && Qualified(e))
       <==> forall e, q :: e in cache.entries && q in cache.entries && e.id == q.id && Qualified(q) ==> Qualified(e)
    ensures UniqueIds(cache.entries) ==> forall e :: e in Eligible(c, cache, p) <==> e in cache.entries && Qualified(e)
  {
    forall e
      ensures e in Eligible(c, cache, p)
         <==> e in cache.entries && exists q :: q in cache.entries && Qualified(q) && q.id == e.id
    {
      EligibleMembers(c, cache, p, e);
    }
  }

  lemma BeforeOrder(c: CacheChecks, p: Preferences)
    requires TotalPreorder(c.collate)
    ensures TotalPreorder((a, b) => Before(c, p, a, b))
  {
  }

  /** With distinct ids the eligible list is the qualified entries in cache order, stably
      sorted by family preference, usage pressure and key. */
  lemma EligibleSorted(c: CacheChecks, cache: Cache, p: Preferences)
    requires ValidCache(c, cache) && UniqueIds(cache.entries) && TotalPreorder(c.collate)
    ensures multiset(Eligible(c, cache, p)) == multiset(Filter(Qualified, cache.entries))
    ensures Sorted((a, b) => Before(c, p, a, b), Eligible(c, cache, p))
  {
    var order := (a, b) => Before(c, p, a, b);
    var ids := IncludedIds(c, cache);
    var test := (e: Entry) => e.id in ids;
    var kept := Filter(test, cache.entries);
    BeforeOrder(c, p);
    SortSorted(order, kept);
    SortPermutes(order, kept);
    forall e | e in cache.entries
      ensures test(e) <==> Qualified(e)
    {
      if test(e) {
        var q :| q in cache.entries && Qualified(q) && q.id == e.id;
      }
    }
    FilterAgree(test, Qualified, cache.entries);
  }

  lemma {:induction false} FilterAgree<T>(p: T -> bool, q: T -> bool, s: seq<T>)
    requires forall x :: x in s ==> p(x) == q(x)
    ensures Filter(p, s) == Filter(q, s)
    decreases |s|
  {
    if s != [] {
      assert s[|s| - 1] in s;
      FilterAgree(p, q, s[..|s| - 1]);
    }
  }

  /** The validator accepts two entries of one id, and then an unregistered, unavailable
      model is eligible because of its namesake. */
  lemma DuplicateIdLetsIneligibleThrough(c: CacheChecks, cache: Cache, p: Preferences, good: Entry)
    requires ValidCache(c, cache) && cache.entries == [good] && Qualified(good)
    ensures var bad := good.(registered := false, available := false, highestTier := false);
      var both := cache.(entries := [good, bad]);
      ValidCache(c, both) && !Qualified(bad) && bad in Eligible(c, both, p)
  {
    var bad := good.(registered := false, available := false, highestTier := false);
    var both := cache.(entries := [good, bad]);
    assert good in cache.entries && good in both.entries && bad in both.entries;
    EligibleMembers(c, both, p, bad);
  }

  // ---- The order of eligible entries -----------------------------------------

  /** Families are ranked by their first place in the list, and all others after it. */
  lemma {:induction false} PreferenceRankMeans(family: Text, preferred: seq<Text>)
    ensures var r := PreferenceRank(family, preferred);
      && r <= |preferred| && (r < |preferred| <==> family in preferred)
      && (r < |preferred| ==> preferred[r] == family)
      && forall j :: 0 <= j < r ==> preferred[j] != family
  {
    if preferred != [] && preferred[0] != family {
      PreferenceRankMeans(family, preferred[1..]);
      assert preferred == [preferred[0]] + preferred[1..];
    }
  }

  /** `f` is named in the list, and `g` not up to there. */
  ghost predicate FamilyFirst(f: Text, g: Text, preferred: seq<Text>)
  {
    exists k :: 0 <= k < |preferred| && preferred[k] == f && g !in preferred[..k + 1]
  }

  /** Usage pressure from light to heavy; no word on it comes last. */
  const LADDER: seq<Option<Pressure>> :=
    [Some(Ok), Some(Warning), Some(Critical), Some(Exhausted), Some(UnknownPressure), None]

  ghost predicate Lighter(a: Option<Pressure>, b: Option<Pressure>)
  {
    exists i, j :: 0 <= i < j < |LADDER| && LADDER[i] == a && LADDER[j] == b
  }

  lemma LighterRanksLower(a: Option<Pressure>, b: Option<Pressure>)
    requires Lighter(a, b)
    ensures PressureRank(a) < PressureRank(b)
  {
    assert forall i :: 0 <= i < |LADDER| ==> PressureRank(LADDER[i]) == i;
  }

  lemma FirstRanksLower(f: Text, g: Text, preferred: seq<Text>)
    requires FamilyFirst(f, g, preferred)
    ensures PreferenceRank(f, preferred) < PreferenceRank(g, preferred)
  {
    PreferenceRankMeans(f, preferred);
    PreferenceRankMeans(g, preferred);
    var k :| 0 <= k < |preferred| && preferred[k] == f && g !in preferred[..k + 1];
    forall j | 0 <= j <= k
      ensures preferred[j] != g
    {
      assert preferred[..k + 1][j] == preferred[j];
    }
  }

  /** What the order means: no entry stands behind one of a family preferred less, nor, within
      a family, behind one under heavier usage pressure. */
  lemma EligibleOrder(c: CacheChecks, cache: Cache, p: Preferences, i: nat, j: nat)
    requires ValidCache(c, cache) && UniqueIds(cache.entries) && TotalPreorder(c.collate)
    requires i < j < |Eligible(c, cache, p)|
    ensures var (a, b) := (Eligible(c, cache, p)[i], Eligible(c, cache, p)[j]);
      && !FamilyFirst(b.modelFamily, a.modelFamily, p.families)
      && (a.modelFamily == b.modelFamily ==> !Lighter(UsageOf(p, b), UsageOf(p, a)))
      && (a.modelFamily == b.modelFamily && UsageOf(p, a) == UsageOf(p, b) ==> c.collate(Key(a), Key(b)))
  {
    EligibleSorted(c, cache, p);
    var es := Eligible(c, cache, p);
    var order := (a, b) => Before(c, p, a, b);
    assert order(es[i], es[j]);
    if FamilyFirst(es[j].modelFamily, es[i].modelFamily, p.families) {
      FirstRanksLower(es[j].modelFamily, es[i].modelFamily, p.families);
    }
    if Lighter(UsageOf(p, es[j]), UsageOf(p, es[i])) {
      LighterRanksLower(UsageOf(p, es[j]), UsageOf(p, es[i]));
    }
  }

  // ---- What the validators look at -------------------------------------------

  /** A change of one value of a context is reported under the name of that value alone. */
  lemma DriftNamesTheField(x: Context, t: Text)
    ensures Drift(x, x.(localDate := t)) == if t == x.localDate then [] else [LocalDate]
    ensures Drift(x, x.(profileRef := t)) == if t == x.profileRef then [] else [Profile]
    ensures Drift(x, x.(opencodeRef := t)) == if t == x.opencodeRef then [] else [OpencodeVersion]
    ensures Drift(x, x.(packageRef := t)) == if t == x.packageRef then [] else [PackageVersion]
    ensures Drift(x, x.(registryHash := t)) == if t == x.registryHash then [] else [Registry]
    ensures Drift(x, x.(policyHash := t)) == if t == x.policyHash then [] else [PolicyPack]
    ensures Drift(x, x.(authRef := t)) == if t == x.authRef then [] else [AuthBoundary]
  {
    OneFieldDrifts(x, x.(localDate := t), LocalDate);
    OneFieldDrifts(x, x.(profileRef := t), Profile);
    OneFieldDrifts(x, x.(opencodeRef := t), OpencodeVersion);
    OneFieldDrifts(x, x.(packageRef := t), PackageVersion);
    OneFieldDrifts(x, x.(registryHash := t), Registry);
    OneFieldDrifts(x, x.(policyHash := t), PolicyPack);
    OneFieldDrifts(x, x.(authRef := t), AuthBoundary);
  }

  lemma OneFieldDrifts(x: Context, y: Context, f: ContextField)
    requires forall g :: g != f ==> Field(x, g) == Field(y, g)
    ensures Drift(x, y) == if Field(x, f) == Field(y, f) then [] else [f]
  {
    var d, only := Differs(x, y), (g: ContextField) => g == f && Field(x, f) != Field(y, f);
    FilterAgree(d, only, FIELDS);
    IsAField(f);
    FilterSingle(only, FIELDS, f);
  }

  lemma {:induction false} FilterSingle<T>(only: T -> bool, s: seq<T>, x: T)
    requires NoDup(s) && forall y :: only(y) ==> y == x
    ensures Filter(only, s) == if x in s && only(x) then [x] else []
  {
    if s != [] {
      var front, last := s[..|s| - 1], s[|s| - 1];
      assert s == front + [last];
      FilterSingle(only, front, x);
    }
  }

  /** Each value of a cache's context passes its own check; the date and the hashes the payload
      scan too. */
  lemma CacheContextDecides(c: CacheChecks, cache: Cache, t: Text)
    requires ValidCache(c, cache)
    ensures var x, f := cache.context, c.fields;
      && (ValidCache(c, cache.(context := x.(localDate := t))) <==> f.localDate(t) && f.clean(t))
      && (ValidCache(c, cache.(context := x.(profileRef := t))) <==> f.opaqueId(t))
      && (ValidCache(c, cache.(context := x.(opencodeRef := t))) <==> f.opaqueId(t))
      && (ValidCache(c, cache.(context := x.(packageRef := t))) <==> f.opaqueId(t))
      && (ValidCache(c, cache.(context := x.(registryHash := t))) <==> f.hashRef(t) && f.clean(t))
      && (ValidCache(c, cache.(context := x.(policyHash := t))) <==> f.hashRef(t) && f.clean(t))
      && (ValidCache(c, cache.(context := x.(authRef := t))) <==> f.opaqueId(t))
      && (ValidCache(c, cache.(id := t)) <==> f.opaqueId(t))
  {
  }

  /** A cache has an entry, and every field of an entry passes its own check. */
  lemma CacheEntriesDecide(c: CacheChecks, cache: Cache, e: Entry)
    requires ValidCache(c, cache)
    ensures !ValidCache(c, cache.(entries := []))
    ensures ValidCache(c, cache.(entries := [e])) <==>
      && c.fields.opaqueId(e.id) && c.fields.opaqueId(e.identityRef) && c.fields.opaqueId(e.modelFamily)
      && c.fields.opaqueId(e.availabilityRef) && c.fields.model(e.model) && c.familyOf(e.family, e.model)
      && c.fields.clean(e.family) && c.fields.clean(e.modelFamily)
  {
    assert e in [e];
  }

  // ---- Refresh plan ----------------------------------------------------------

  datatype PlanState = CacheHit | RefreshRequired | PlanBlocked

  datatype PlanLabel = CacheInvalid | ContextInvalid

  /** Reasons: the cache is missing, or fields changed. */
  datatype RefreshPlan = RefreshPlan(
    state: PlanState, blocked: seq<PlanLabel>, missing: bool, changed: seq<ContextField>,
    expected: Context, cacheId: Option<Text>, cacheContext: Option<Context>, usable: bool)

  function PlanRefresh(c: CacheChecks, cache: Option<Cache>, x: Context): RefreshPlan
  {
    var invalid := cache.Some? && !ValidCache(c, cache.value);
    var blocked := if invalid then [CacheInvalid] else if !ValidContext(c.fields, x) then [ContextInvalid] else [];
    var changed := if invalid || cache.None? then [] else Drift(cache.value.context, x);
    var state := if blocked != [] then PlanBlocked
                 else if cache.None? || changed != [] then RefreshRequired else CacheHit;
    RefreshPlan(state, blocked, cache.None?, changed, x,
                if cache.None? then None else Some(cache.value.id),
                if cache.None? then None else Some(cache.value.context), state.CacheHit?)
  }

  /** The plan validator. */
  predicate ValidPlan(c: FieldChecks, plan: RefreshPlan)
  {
    && (plan.state.CacheHit? ==> plan.blocked == [] && !plan.missing && plan.changed == [])
    && (plan.state.RefreshRequired? ==> plan.missing || plan.changed != [])
    && (plan.state.PlanBlocked? ==> plan.blocked != [])
    && ValidContext(c, plan.expected) && ScannedContext(c, plan.expected)
    && (plan.cacheId.Some? ==> c.opaqueId(plan.cacheId.value))
    && (plan.cacheContext.Some? ==>
          ValidContext(c, plan.cacheContext.value) && ScannedContext(c, plan.cacheContext.value))
    && (plan.usable <==> plan.state.CacheHit?)
  }

  // ---- Revalidation ----------------------------------------------------------

  datatype Binding = Binding(entryId: Text, model: Text)

  /** What a successful revalidation carries on; the expected and the cached context are
      equal then. */
  datatype Revalidation = Revalidation(cacheId: Text, context: Context, bindings: seq<Binding>)

  function BindingOf(e: Entry): Binding { Binding(e.id, e.model) }

  /** Revalidation against the context a caller expects; `None` is the blocked state. */
  function Revalidate(c: CacheChecks, cache: Cache, x: Context): Option<Revalidation>
  {
    var eligible := if ValidCache(c, cache) then Eligible(c, cache, NO_PREFERENCES) else [];
    if ValidCache(c, cache) && ValidContext(c.fields, x) && Drift(cache.context, x) == [] && eligible != []
    then Some(Revalidation(cache.id, cache.context, Map(BindingOf, eligible))) else None
  }

  /** Revalidation that also wants a refresh plan saying the cache is good. */
  function RevalidateFromEvidence(c: CacheChecks, cache: Cache, plan: RefreshPlan, x: Context): Option<Revalidation>
  {
    var base := Revalidate(c, cache, x);
    if && base.Some? && ValidPlan(c.fields, plan) && plan.state.CacheHit? && plan.usable
       && plan.cacheId == Some(cache.id) && Drift(plan.expected, x) == []
       && plan.cacheContext.Some? && Drift(plan.cacheContext.value, cache.context) == []
    then base else None
  }

  /** A cache is a hit exactly when it is valid and bound to the very same valid context. */
  lemma CacheHitMeans(c: CacheChecks, cache: Cache, x: Context)
    ensures PlanRefresh(c, Some(cache), x).state.CacheHit? <==> ValidCache(c, cache) && cache.context == x
  {
    DriftMeans(cache.context, x);
  }

  /** For the plan the planner itself makes from the same inputs, asking for the plan as
      evidence changes nothing. */
  lemma EvidenceAgreesWithPlain(c: CacheChecks, cache: Cache, x: Context)
    ensures RevalidateFromEvidence(c, cache, PlanRefresh(c, Some(cache), x), x) == Revalidate(c, cache, x)
  {
    DriftMeans(cache.context, x);
    DriftMeans(x, x);
    DriftMeans(cache.context, cache.context);
  }

  /** Revalidation succeeds exactly for a valid cache bound to the expected context, with an
      entry that is registered, available and of the highest tier. */
  lemma RevalidatesIff(c: CacheChecks, cache: Cache, x: Context)
    ensures Revalidate(c, cache, x).Some? <==>
      && ValidCache(c, cache) && cache.context == x
      && exists e :: e in cache.entries && e.registered && e.available && e.highestTier
  {
    DriftMeans(cache.context, x);
    if ValidCache(c, cache) {
      var eligible := Eligible(c, cache, NO_PREFERENCES);
      if eligible != [] {
        EligibleMembers(c, cache, NO_PREFERENCES, eligible[0]);
      }
      if e :| e in cache.entries && Qualified(e) {
        EligibleMembers(c, cache, NO_PREFERENCES, e);
      }
    }
  }

  /** With distinct ids it carries one binding for every qualified entry - all of them, each
      once, and no other - ordered by the sort keys. */
  lemma RevalidatedBindings(c: CacheChecks, cache: Cache, x: Context) returns (entries: seq<Entry>)
    requires UniqueIds(cache.entries) && TotalPreorder(c.collate) && Revalidate(c, cache, x).Some?
    ensures var r := Revalidate(c, cache, x).value;
      && r.cacheId == cache.id && r.context == x
      && |r.bindings| == |entries|
      && (forall i :: 0 <= i < |entries| ==> r.bindings[i] == Binding(entries[i].id, entries[i].model))
      && multiset(r.bindings) == multiset(Map(BindingOf, Filter(Qualified, cache.entries)))
    ensures multiset(entries) == multiset(Filter(Qualified, cache.entries))
    ensures forall i, j :: 0 <= i < j < |entries| ==> c.collate(Key(entries[i]), Key(entries[j]))
  {
    DriftMeans(cache.context, x);
    entries := Eligible(c, cache, NO_PREFERENCES);
    EligibleSorted(c, cache, NO_PREFERENCES);
    MapPermutes(BindingOf, entries, Filter(Qualified, cache.entries));
  }

  /** As evidence for a revalidation exactly one plan will do: the one the planner makes
      from this cache and this context. */
  lemma OnlyThePlannersPlan(c: CacheChecks, cache: Cache, plan: RefreshPlan, x: Context)
    ensures RevalidateFromEvidence(c, cache, plan, x)
         == if plan == PlanRefresh(c, Some(cache), x) then Revalidate(c, cache, x) else None
  {
    DriftMeans(cache.context, x);
    DriftMeans(plan.expected, x);
    DriftMeans(x, x);
    DriftMeans(cache.context, cache.context);
    if plan.cacheContext.Some? {
      DriftMeans(plan.cacheContext.value, cache.context);
    }
  }

  /** A change of any context field makes both refuse, whatever plan is shown. */
  lemma ContextChangeRefuses(c: CacheChecks, cache: Cache, plan: RefreshPlan, x: Context, f: ContextField)
    requires Field(cache.context, f) != Field(x, f)
    ensures Revalidate(c, cache, x).None? && RevalidateFromEvidence(c, cache, plan, x).None?
    ensures !PlanRefresh(c, Some(cache), x).state.CacheHit?
  {
    DriftMeans(cache.context, x);
  }

  /** A plan made for another context is no evidence either. */
  lemma StalePlanRefuses(c: CacheChecks, cache: Cache, y: Context, x: Context)
    requires x != y
    ensures RevalidateFromEvidence(c, cache, PlanRefresh(c, Some(cache), y), x).None?
  {
    DriftMeans(y, x);
  }

  // ---- Materializing from a provider result ----------------------------------

  datatype AcquisitionState = Acquired | AcquisitionBlocked

  datatype ProviderResult = ProviderResult(
    id: Text, ok: bool, state: AcquisitionState, blockedLabels: seq<Text>, planOk: bool, planPlanned: bool,
    context: Context,
    family: Text, identityRef: Text, model: Text, modelFamily: Text, availabilityRef: Text, resultRef: Option<Text>,
    observedAt: Stamp, available: bool, highestTier: bool,
    acquisitionAttempted: bool, discoveryAttempted: bool, providerCall: bool)

  predicate ValidProviderResult(c: CacheChecks, r: ProviderResult)
  {
    && c.fields.opaqueId(r.id) && ValidContext(c.fields, r.context) && ScannedContext(c.fields, r.context)
    && c.familyOf(r.family, r.model) && c.fields.opaqueId(r.identityRef) && c.fields.model(r.model)
    && c.fields.opaqueId(r.modelFamily) && c.fields.opaqueId(r.availabilityRef)
    && (r.resultRef.Some? ==> c.fields.opaqueId(r.resultRef.value))
    && c.fields.clean(r.family) && c.fields.clean(r.modelFamily)
    && Parses(r.observedAt) && c.fields.clean(r.observedAt.text)
    && (forall l :: l in r.blockedLabels ==> c.fields.opaqueId(l) && c.fields.clean(l))
    && (r.state.Acquired? ==>
          && r.blockedLabels == [] && r.planOk && r.planPlanned
          && r.acquisitionAttempted && r.discoveryAttempted && r.resultRef.Some?)
    && (r.state.AcquisitionBlocked? ==> r.blockedLabels != [])
    && (r.providerCall ==> r.acquisitionAttempted && r.discoveryAttempted)
    && (r.highestTier ==> r.available)
  }

  /** What the caller expects of the context, field by field; an absent field is not compared. */
  type Expectation = map<ContextField, Text>

  ghost predicate Meets(x: Context, expected: Expectation)
  {
    forall f :: f in expected ==> Field(x, f) == expected[f]
  }

  /** A provider result turned into a cache of its one entry. */
  ghost function Materialize(c: CacheChecks, r: ProviderResult, cacheId: Text, entryId: Text, expected: Expectation)
    : Option<Cache>
  {
    var cache := Cache(cacheId, r.context,
                       [Entry(entryId, r.family, r.identityRef, r.model, r.modelFamily,
                              true, true, true, r.availabilityRef)]);
    if && ValidProviderResult(c, r) && r.ok && r.state.Acquired? && r.available && r.highestTier && r.providerCall
       && r.acquisitionAttempted && r.discoveryAttempted && r.resultRef.Some? && Meets(r.context, expected)
       && c.fields.opaqueId(cacheId) && c.fields.opaqueId(entryId) && ValidCache(c, cache)
    then Some(cache) else None
  }

  /** What a result, the given ids and the expectation need to be materialized. */
  ghost predicate Acquirable(c: CacheChecks, r: ProviderResult, cacheId: Text, entryId: Text, expected: Expectation)
  {
    && ValidProviderResult(c, r) && r.ok && r.state.Acquired? && r.available && r.highestTier && r.providerCall
    && Meets(r.context, expected) && c.fields.opaqueId(cacheId) && c.fields.opaqueId(entryId)
  }

  lemma MaterializeIff(c: CacheChecks, r: ProviderResult, cacheId: Text, entryId: Text, expected: Expectation)
    ensures Materialize(c, r, cacheId, entryId, expected).Some? <==> Acquirable(c, r, cacheId, entryId, expected)
  {
  }

  /** A valid cache of one qualified entry is a hit in its own context and revalidates to the
      binding of that entry. */
  lemma SingletonRevalidates(c: CacheChecks, cache: Cache, e: Entry)
    requires ValidCache(c, cache) && cache.entries == [e] && Qualified(e)
    ensures PlanRefresh(c, Some(cache), cache.context).state.CacheHit?
    ensures Revalidate(c, cache, cache.context) == Some(Revalidation(cache.id, cache.context, [Binding(e.id, e.model)]))
  {
    CacheHitMeans(c, cache, cache.context);
    DriftMeans(cache.context, cache.context);
    EligibleOfOne(c, cache, e);
    assert Map(BindingOf, [e]) == [BindingOf(e)];
  }

  /** Exactly an acquirable result is materialized - the validation of the produced cache
      refuses nothing - and the cache then is a hit in its own context and revalidates to
      the one binding that was acquired, with and without the plan as evidence. */
  lemma MaterializedRevalidates(c: CacheChecks, r: ProviderResult, cacheId: Text, entryId: Text, expected: Expectation)
    ensures Materialize(c, r, cacheId, entryId, expected).Some? <==> Acquirable(c, r, cacheId, entryId, expected)
    ensures Materialize(c, r, cacheId, entryId, expected).Some? ==>
      var cache := Materialize(c, r, cacheId, entryId, expected).value;
      && PlanRefresh(c, Some(cache), r.context).state.CacheHit?
      && Revalidate(c, cache, r.context) == Some(Revalidation(cacheId, r.context, [Binding(entryId, r.model)]))
      && RevalidateFromEvidence(c, cache, PlanRefresh(c, Some(cache), r.context), r.context)
         == Revalidate(c, cache, r.context)
  {
    MaterializeIff(c, r, cacheId, entryId, expected);
    if Materialize(c, r, cacheId, entryId, expected).Some? {
      var cache := Materialize(c, r, cacheId, entryId, expected).value;
      SingletonRevalidates(c, cache, cache.entries[0]);
      EvidenceAgreesWithPlain(c, cache, r.context);
    }
  }

  /** An expectation is met exactly if every value it names is the one of the context. */
  lemma ExpectationDecides(c: CacheChecks, r: ProviderResult, cacheId: Text, entryId: Text, expected: Expectation,
                           f: ContextField, t: Text)
    requires Materialize(c, r, cacheId, entryId, expected).Some?
    ensures Materialize(c, r, cacheId, entryId, expected[f := t]).Some? <==> t == Field(r.context, f)
  {
    MaterializeIff(c, r, cacheId, entryId, expected);
    MaterializeIff(c, r, cacheId, entryId, expected[f := t]);
  }

  /** What a materialized result must be, and that there is one. */
  lemma MaterializedResult(c: CacheChecks, r: ProviderResult, cacheId: Text, entryId: Text, expected: Expectation)
    requires Materialize(c, r, cacheId, entryId, expected).Some?
    ensures r.state == Acquired && r.blockedLabels == [] && r.ok && r.planOk && r.planPlanned && r.available
    ensures r.highestTier && r.providerCall && r.acquisitionAttempted && r.discoveryAttempted && r.resultRef != None
  {
  }

  lemma SomeResultMaterializes(t: Text) returns (c: CacheChecks, r: ProviderResult)
    ensures Materialize(c, r, t, t, map[LocalDate := t]).Some?
  {
    var yes := (_: Text) => true;
    c := CacheChecks(FieldChecks(yes, yes, yes, yes, yes), (_, _) => true, (_, _) => true);
    r := ProviderResult(t, true, Acquired, [], true, true, Context(t, t, t, t, t, t, t), t, t, t, t, t, Some(t),
                        Stamp(t, Some(0)), true, true, true, true, true);
    MaterializeIff(c, r, t, t, map[LocalDate := t]);
  }

  lemma EligibleOfOne(c: CacheChecks, cache: Cache, e: Entry)
    requires ValidCache(c, cache) && cache.entries == [e] && Qualified(e)
    ensures Eligible(c, cache, NO_PREFERENCES) == [e]
  {
    var ids := IncludedIds(c, cache);
    var test := (x: Entry) => x.id in ids;
    assert e in cache.entries;
    assert [e][..0] == [];
    assert Filter(test, [e]) == [e];
  }
}
