/** Reviewer fan-out: spreading bindings over models, assigning lanes round-robin, and
    staggering the launches of lanes that share a model. */
module ReviewerFanout {
  import opened Collections
  import opened StableSort
  import opened Texts
  import opened Checks
  import opened AvailabilityCache

  // ---- Spreading over models -------------------------------------------------

  /** The items whose model has not occurred before them. */
  function Firsts<T>(model: T -> Text, s: seq<T>): seq<T>
  {
    if s == [] then []
    else
      var front, x := s[..|s| - 1], s[|s| - 1];
      if model(x) in Map(model, front) then Firsts(model, front) else Firsts(model, front) + [x]
  }

  /** The items whose model has. */
  function Repeats<T>(model: T -> Text, s: seq<T>): seq<T>
  {
    if s == [] then []
    else
      var front, x := s[..|s| - 1], s[|s| - 1];
      if model(x) in Map(model, front) then Repeats(model, front) + [x] else Repeats(model, front)
  }

  function Spread<T>(model: T -> Text, s: seq<T>): seq<T>
  {
    Firsts(model, s) + Repeats(model, s)
  }

  method SpreadByModel<T>(model: T -> Text, items: seq<T>) returns (r: seq<T>)
    ensures r == Spread(model, items)
  {
    var seen: set<Text> := {};
    var preferred: seq<T>, repeats: seq<T> := [], [];
    for i := 0 to |items|
      invariant forall m :: m in seen <==> m in Map(model, items[..i])
      invariant preferred == Firsts(model, items[..i]) && repeats == Repeats(model, items[..i])
    {
      var item := items[i];
      assert items[..i + 1][..i] == items[..i];
      assert Map(model, items[..i + 1]) == Map(model, items[..i]) + [model(item)];
      if model(item) in seen {
        repeats := repeats + [item];
      } else {
        seen := seen + {model(item)};
        preferred := preferred + [item];
      }
    }
    assert items[..|items|] == items;
    r := preferred + repeats;
  }

  /** Spreading only rearranges. */
  lemma {:induction false} SpreadPermutes<T>(model: T -> Text, s: seq<T>)
    ensures multiset(Spread(model, s)) == multiset(s)
    ensures |Spread(model, s)| == |s|
  {
    if s != [] {
      var front, x := s[..|s| - 1], s[|s| - 1];
      assert s == front + [x];
      SpreadPermutes(model, front);
      assert multiset(s) == multiset(front) + multiset([x]);
      assert multiset(Firsts(model, front) + [x]) == multiset(Firsts(model, front)) + multiset([x]);
      assert multiset(Repeats(model, front) + [x]) == multiset(Repeats(model, front)) + multiset([x]);
    }
  }

  /** The items put first carry every model once, in order of first appearance. */
  lemma {:induction false} FirstsAreDistinctModels<T>(model: T -> Text, s: seq<T>)
    ensures Map(model, Firsts(model, s)) == Unique(Map(model, s))
  {
    if s != [] {
      var front, x := s[..|s| - 1], s[|s| - 1];
      FirstsAreDistinctModels(model, front);
      assert Map(model, s)[..|s| - 1] == Map(model, front);
      UniqueMembers(Map(model, front));
      assert Map(model, Firsts(model, front) + [x]) == Map(model, Firsts(model, front)) + [model(x)];
    }
  }

  function OfModel<T>(model: T -> Text, m: Text): T -> bool
  {
    x => model(x) == m
  }

  /** Stability: the bindings of each model keep their order. */
  lemma {:induction false} SpreadKeepsModelOrder<T>(model: T -> Text, s: seq<T>, m: Text)
    ensures Filter(OfModel(model, m), Spread(model, s)) == Filter(OfModel(model, m), s)
  {
    var test := OfModel(model, m);
    if s != [] {
      var front, x := s[..|s| - 1], s[|s| - 1];
      SpreadKeepsModelOrder(model, front, m);
      if model(x) in Map(model, front) {
        AppendRepeat(test, Firsts(model, front), Repeats(model, front), x);
      } else {
        if model(x) == m {
          NoRepeatOfNewModel(model, front, m);
        }
        AppendFirst(test, Firsts(model, front), Repeats(model, front), x);
      }
      FilterConcat(test, front, [x]);
      assert s == front + [x];
    }
  }

  lemma {:induction false} NoRepeatOfNewModel<T>(model: T -> Text, s: seq<T>, m: Text)
    requires m !in Map(model, s)
    ensures Filter(OfModel(model, m), Repeats(model, s)) == []
  {
    if s != [] {
      var front, x := s[..|s| - 1], s[|s| - 1];
      assert Map(model, s) == Map(model, front) + [model(x)];
      NoRepeatOfNewModel(model, front, m);
      FilterConcat(OfModel(model, m), Repeats(model, front), [x]);
      FilterOne(OfModel(model, m), x);
    }
  }

  lemma AppendRepeat<T>(test: T -> bool, f: seq<T>, r: seq<T>, x: T)
    ensures Filter(test, f + (r + [x])) == Filter(test, f + r) + Filter(test, [x])
  {
    FilterConcat(test, f + r, [x]);
    assert f + r + [x] == f + (r + [x]);
  }

  lemma AppendFirst<T>(test: T -> bool, f: seq<T>, r: seq<T>, x: T)
    requires test(x) ==> Filter(test, r) == []
    ensures Filter(test, f + [x] + r) == Filter(test, f + r) + Filter(test, [x])
  {
    FilterConcat(test, f + [x], r);
    FilterConcat(test, f, [x]);
    FilterConcat(test, f, r);
    FilterOne(test, x);
  }

  lemma FilterOne<T>(p: T -> bool, x: T)
    ensures Filter(p, [x]) == if p(x) then [x] else []
  {
  }

  // ---- Round robin -----------------------------------------------------------

  /** Whose turn it is at lane `i` among `n` bindings. */
  function Turn(i: nat, n: nat): (t: nat)
    requires n > 0
    ensures t < n && (i < n ==> t == i)
  {
    i % n
  }

  /** The first `n` lanes take bindings in turn. */
  function RoundRobin<T>(bindings: seq<T>, n: nat): (r: seq<T>)
    requires bindings != []
    ensures |r| == n && forall i :: 0 <= i < n ==> r[i] == bindings[Turn(i, |bindings|)]
  {
    seq(n, i requires 0 <= i < n => bindings[Turn(i, |bindings|)])
  }

  lemma TurnRepeats(i: nat, k: nat)
    requires k > 0 && i >= k
    ensures Turn(i, k) == Turn(i - k, k)
  {
    var q, p := i / k, (i - k) / k;
    assert i == q * k + i % k && i - k == p * k + (i - k) % k;
    if q - 1 > p {
      TimesMonotone(1, q - 1 - p, k);
    } else if p > q - 1 {
      TimesMonotone(1, p - q + 1, k);
    }
  }

  /** The first lanes take the bindings in order, and from then on every lane takes what the
      lane `|bindings|` before it took. */
  lemma RoundRobinRepeats<T>(bindings: seq<T>, n: nat, i: nat)
    requires bindings != [] && i < n
    ensures i < |bindings| ==> RoundRobin(bindings, n)[i] == bindings[i]
    ensures i >= |bindings| ==> RoundRobin(bindings, n)[i] == RoundRobin(bindings, n)[i - |bindings|]
  {
    if i >= |bindings| {
      TurnRepeats(i, |bindings|);
    }
  }

  function Distinct(models: seq<Text>): nat
  {
    |Members(models)|
  }

  lemma {:induction false} PrefixNoDup<T>(s: seq<T>, n: nat)
    requires NoDup(s) && n <= |s|
    ensures NoDup(s[..n])
  {
  }

  /** Round robin over spread bindings makes `n` lanes use as many models as possible:
      all of them, or one per lane. */
  lemma RoundRobinUsesMostModels<T>(model: T -> Text, s: seq<T>, n: nat)
    requires s != []
    ensures Spread(model, s) != []
    ensures Distinct(Map(model, RoundRobin(Spread(model, s), n)))
         == if n <= Distinct(Map(model, s)) then n else Distinct(Map(model, s))
  {
    var all := Map(model, s);
    SpreadPermutes(model, s);
    UniqueMembers(all);
    NoDupCardinality(Unique(all));
    assert Members(Unique(all)) == Members(all);
    var lanes := Map(model, RoundRobin(Spread(model, s), n));
    LanesStartWithFirsts(model, s, n);
    if n <= |Unique(all)| {
      assert lanes == Unique(all)[..n];
      PrefixNoDup(Unique(all), n);
      NoDupCardinality(lanes);
    } else {
      LanesUseOnlyModels(model, s, n);
      forall m | m in all
        ensures m in lanes
      {
        var i :| 0 <= i < |Unique(all)| && Unique(all)[i] == m;
        assert lanes[i] == m;
      }
      assert Members(lanes) == Members(all);
    }
  }

  /** The first lanes get the distinct models in order of first appearance. */
  lemma LanesStartWithFirsts<T>(model: T -> Text, s: seq<T>, n: nat)
    requires s != [] && |Spread(model, s)| == |s|
    ensures forall i :: 0 <= i < n && i < |Unique(Map(model, s))| ==>
      Map(model, RoundRobin(Spread(model, s), n))[i] == Unique(Map(model, s))[i]
  {
    FirstsAreDistinctModels(model, s);
    var f := Firsts(model, s);
    forall i | 0 <= i < n && i < |f|
      ensures Map(model, RoundRobin(Spread(model, s), n))[i] == Map(model, f)[i]
    {
      assert Spread(model, s)[i] == f[i];
    }
  }

  lemma LanesUseOnlyModels<T>(model: T -> Text, s: seq<T>, n: nat)
    requires s != [] && |Spread(model, s)| == |s| && multiset(Spread(model, s)) == multiset(s)
    ensures forall m :: m in Map(model, RoundRobin(Spread(model, s), n)) ==> m in Map(model, s)
  {
    var spread := Spread(model, s);
    var lanes := Map(model, RoundRobin(spread, n));
    PermutationMembers(spread, s);
    forall m | m in lanes
      ensures m in Map(model, s)
    {
      var i :| 0 <= i < n && lanes[i] == m;
      var x := spread[Turn(i, |spread|)];
      assert x in spread;
      var j :| 0 <= j < |s| && s[j] == x;
      assert Map(model, s)[j] == m;
    }
  }

  // ---- Launch schedule -------------------------------------------------------

  function Occurrences(models: seq<Text>, m: Text): nat
  {
    if models == [] then 0
    else Occurrences(models[..|models| - 1], m) + if models[|models| - 1] == m then 1 else 0
  }

  /** How often the most frequent model occurs. */
  function MaxRepeat(models: seq<Text>): nat
  {
    if models == [] then 0
    else
      var rest, mine := MaxRepeat(models[..|models| - 1]), Occurrences(models, models[|models| - 1]);
      if mine > rest then mine else rest
  }

  /** A bound on every model ... */
  lemma {:induction false} MaxRepeatBounds(models: seq<Text>, m: Text)
    ensures Occurrences(models, m) <= MaxRepeat(models)
  {
    if models != [] {
      MaxRepeatBounds(models[..|models| - 1], m);
    }
  }

  /** ... that some model attains. */
  lemma {:induction false} MaxRepeatAttained(models: seq<Text>) returns (m: Text)
    requires models != []
    ensures Occurrences(models, m) == MaxRepeat(models) >= 1
  {
    m := models[|models| - 1];
    if MaxRepeat(models) > Occurrences(models, m) {
      assert MaxRepeat(models[..|models| - 1]) > 0;
      m := MaxRepeatAttained(models[..|models| - 1]);
      MaxRepeatBounds(models, m);
    }
  }

  /** The delay of lane `i`: the number of earlier lanes on its model, times the stagger. */
  function Delay(models: seq<Text>, stagger: nat, i: nat): nat
    requires i < |models|
  {
    Occurrences(models[..i], models[i]) * stagger
  }

  function CountOf(counts: map<Text, nat>, m: Text): nat
  {
    if m in counts then counts[m] else 0
  }

  method Schedule(models: seq<Text>, stagger: nat) returns (delays: seq<nat>)
    ensures |delays| == |models| && forall i :: 0 <= i < |models| ==> delays[i] == Delay(models, stagger, i)
  {
    var counts: map<Text, nat> := map[];
    delays := [];
    for i := 0 to |models|
      invariant |delays| == i && forall j :: 0 <= j < i ==> delays[j] == Delay(models, stagger, j)
      invariant forall m :: CountOf(counts, m) == Occurrences(models[..i], m)
    {
      var m := models[i];
      var previous := CountOf(counts, m);
      assert models[..i + 1][..i] == models[..i];
      counts := counts[m := previous + 1];
      delays := delays + [previous * stagger];
    }
  }

  lemma {:induction false} PrefixOccurrences(models: seq<Text>, i: nat, m: Text)
    requires i <= |models|
    ensures Occurrences(models[..i], m) <= Occurrences(models, m)
  {
    if i < |models| {
      PrefixOccurrences(models[..|models| - 1], i, m);
      assert models[..|models| - 1][..i] == models[..i];
    } else {
      assert models[..i] == models;
    }
  }

  /** The `k`-th lane on a model exists for every `k` up to the model's count, and starts
      at `k - 1` times the stagger. */
  lemma {:induction false} KthLane(models: seq<Text>, stagger: nat, m: Text, k: nat) returns (i: nat)
    requires 1 <= k <= Occurrences(models, m)
    ensures i < |models| && models[i] == m && Occurrences(models[..i], m) == k - 1
    ensures Delay(models, stagger, i) == (k - 1) * stagger
  {
    var front := models[..|models| - 1];
    if k <= Occurrences(front, m) {
      i := KthLane(front, stagger, m, k);
      assert models[..i] == front[..i];
    } else {
      i := |front|;
    }
  }

  lemma TimesMonotone(a: nat, b: nat, stagger: nat)
    requires a <= b
    ensures a * stagger <= b * stagger
  {
  }

  /** All delays stay within a bound exactly when the most repeated model's last lane does. */
  lemma DelaysBoundedIff(models: seq<Text>, stagger: nat, bound: nat)
    requires models != []
    ensures MaxRepeat(models) >= 1
    ensures (forall i :: 0 <= i < |models| ==> Delay(models, stagger, i) <= bound)
       <==> (MaxRepeat(models) - 1) * stagger <= bound
  {
    var m := MaxRepeatAttained(models);
    var top := MaxRepeat(models) - 1;
    if top * stagger <= bound {
      forall i | 0 <= i < |models|
        ensures Delay(models, stagger, i) <= bound
      {
        assert models[..i + 1][..i] == models[..i];
        PrefixOccurrences(models, i + 1, models[i]);
        MaxRepeatBounds(models, models[i]);
        TimesMonotone(Occurrences(models[..i], models[i]), top, stagger);
      }
    } else {
      var i := KthLane(models, stagger, m, MaxRepeat(models));
      assert Delay(models, stagger, i) == top * stagger;
    }
  }

  // ---- The plan --------------------------------------------------------------

  datatype Perspective = PolicySecurity | Architecture | VerificationImplementation

  const LANE_CAP := 5
  const MAX_STAGGER_MS := 60_000

  datatype Launch = Launch(
    workflowId: Text, attemptId: Text, parentRef: Text, agentRef: Text, requestedAt: Stamp,
    perspectives: seq<Perspective>,
    maxConcurrent: Option<int>, timeoutMs: int, orphanMaxAgeMs: int, retryBudget: int, staggerMs: int)

  datatype Request = Request(perspective: Perspective, model: Text)

  /** `labelled` says whether the plan carries blocked labels. */
  datatype Plan = Plan(
    ready: bool, labelled: bool, perspectives: seq<Perspective>, requests: seq<Request>,
    maxConcurrent: int, staggerMs: int, delays: seq<nat>)

  /** What else a launch request needs to pass its own validator, given its launch. */
  type RequestCheck = (Launch, Request) -> bool

  function RequestedConcurrency(l: Launch): int
  {
    match l.maxConcurrent
    case Some(n) => n
    case None => if |l.perspectives| < 3 then |l.perspectives| else 3
  }

  predicate ValidPerspectives(s: seq<Perspective>)
  {
    s != [] && |Members(s)| == |s|
  }

  predicate ValidLaunch(c: FieldChecks, l: Launch)
  {
    && c.opaqueId(l.workflowId) && c.opaqueId(l.attemptId) && c.opaqueId(l.parentRef) && c.opaqueId(l.agentRef)
    && Parses(l.requestedAt) && ValidPerspectives(l.perspectives) && |l.perspectives| <= LANE_CAP
    && 1 <= RequestedConcurrency(l) <= |l.perspectives| && RequestedConcurrency(l) <= LANE_CAP
    && 0 <= l.timeoutMs <= 600_000 && 0 <= l.orphanMaxAgeMs <= 3_600_000 && 0 <= l.retryBudget <= 2
    && 0 <= l.staggerMs <= MAX_STAGGER_MS
  }

  lemma ThreePerspectives(s: seq<Perspective>)
    ensures |Members(s)| <= 3
  {
    var all := {PolicySecurity, Architecture, VerificationImplementation};
    forall p | p in Members(s)
      ensures p in all
    {
      assert p.PolicySecurity? || p.Architecture? || p.VerificationImplementation?;
    }
    SubsetSize(Members(s), all);
  }

  lemma SubsetSize<T>(a: set<T>, b: set<T>)
    requires a <= b
    ensures |a| <= |b|
  {
    assert b == a + (b - a);
  }

  lemma {:induction false} RepeatShrinks<T>(s: seq<T>)
    ensures |Members(s)| == |s| <==> NoDup(s)
    ensures |Members(s)| <= |s|
  {
    if s != [] {
      var front, x := s[..|s| - 1], s[|s| - 1];
      assert s == front + [x];
      RepeatShrinks(front);
      if x in front {
        assert Members(s) == Members(front);
        var i :| 0 <= i < |front| && front[i] == x;
        assert s[i] == s[|s| - 1];
      } else {
        assert Members(s) == Members(front) + {x};
      }
    }
  }

  /** One to three perspectives, each once. */
  lemma PerspectivesIff(s: seq<Perspective>)
    ensures ValidPerspectives(s) <==>
      1 <= |s| <= 3 && forall i, j :: 0 <= i < j < |s| ==> s[i] != s[j]
  {
    ThreePerspectives(s);
    RepeatShrinks(s);
  }

  /** Without a requested concurrency all lanes may run at once. */
  lemma DefaultConcurrency(c: FieldChecks, l: Launch)
    requires l.maxConcurrent.None? && ValidPerspectives(l.perspectives)
    ensures RequestedConcurrency(l) == |l.perspectives|
    ensures ValidLaunch(c, l) <==> ValidLaunch(c, l.(maxConcurrent := Some(|l.perspectives|)))
  {
    ThreePerspectives(l.perspectives);
  }

  /** The bounds of a launch. */
  lemma LaunchBounds(c: FieldChecks, l: Launch, n: int)
    requires ValidLaunch(c, l)
    ensures ValidLaunch(c, l.(maxConcurrent := Some(n))) <==> 1 <= n <= |l.perspectives|
    ensures ValidLaunch(c, l.(timeoutMs := n)) <==> 0 <= n <= 600_000
    ensures ValidLaunch(c, l.(orphanMaxAgeMs := n)) <==> 0 <= n <= 3_600_000
    ensures ValidLaunch(c, l.(retryBudget := n)) <==> 0 <= n <= 2
    ensures ValidLaunch(c, l.(staggerMs := n)) <==> 0 <= n <= 60_000
  {
  }

  /** The revalidation record a fan-out accepts: revalidated, with valid bindings. */
  predicate ValidRevalidation(c: FieldChecks, r: Revalidation)
  {
    && c.opaqueId(r.cacheId) && ValidContext(c, r.context) && ScannedContext(c, r.context) && r.bindings != []
    && forall b :: b in r.bindings ==> c.opaqueId(b.entryId) && c.model(b.model)
  }

  function ModelOf(b: Binding): Text { b.model }

  /** The models of the planned lanes, lane by lane. */
  function LaneModels(bindings: seq<Binding>, lanes: nat): (r: seq<Text>)
    requires bindings != []
    ensures |r| == lanes
  {
    Map(ModelOf, RoundRobin(bindings, lanes))
  }

  function RequestsOf(l: Launch, models: seq<Text>): seq<Request>
    requires |models| == |l.perspectives|
  {
    seq(|models|, i requires 0 <= i < |models| => Request(l.perspectives[i], models[i]))
  }

  /** The lanes a ready plan runs on. */
  function PlannedModels(r: Revalidation, l: Launch): seq<Text>
    requires r.bindings != []
  {
    SpreadPermutes(ModelOf, r.bindings);
    LaneModels(Spread(ModelOf, r.bindings), |l.perspectives|)
  }

  ghost predicate Ready(c: FieldChecks, check: RequestCheck, r: Option<Revalidation>, l: Launch)
  {
    && r.Some? && ValidRevalidation(c, r.value) && ValidLaunch(c, l)
    && forall q :: q in RequestsOf(l, PlannedModels(r.value, l)) ==> check(l, q)
  }

  /** The plan made for the given lanes. */
  ghost predicate PlanFor(l: Launch, models: seq<Text>, plan: Plan)
    requires |models| == |l.perspectives| && l.staggerMs >= 0
  {
    && plan.ready && !plan.labelled && plan.perspectives == l.perspectives && plan.requests == RequestsOf(l, models)
    && plan.staggerMs == l.staggerMs && DelaysMatch(models, l.staggerMs, plan.delays)
    && plan.maxConcurrent
       == (if RequestedConcurrency(l) <= Distinct(models) then RequestedConcurrency(l) else Distinct(models))
  }

  ghost predicate DelaysMatch(models: seq<Text>, stagger: nat, delays: seq<nat>)
  {
    |delays| == |models| && forall i :: 0 <= i < |models| ==> delays[i] == Delay(models, stagger, i)
  }

  function BlockedPlan(l: Launch, labelled: bool, requests: seq<Request>): Plan
  {
    Plan(false, labelled, l.perspectives, requests, RequestedConcurrency(l), l.staggerMs, [])
  }

  method PlanLanes(check: RequestCheck, l: Launch, models: seq<Text>) returns (plan: Plan)
    requires |models| == |l.perspectives| && l.staggerMs >= 0
    ensures plan.ready <==> forall q :: q in RequestsOf(l, models) ==> check(l, q)
    ensures plan.ready ==> PlanFor(l, models, plan)
    ensures !plan.ready ==> plan == BlockedPlan(l, false, RequestsOf(l, models))
  {
    var requests := RequestsOf(l, models);
    var delays := Schedule(models, l.staggerMs);
    for i := 0 to |requests|
      invariant forall j :: 0 <= j < i ==> check(l, requests[j])
    {
      if !check(l, requests[i]) {
        assert requests[i] in requests;
        return BlockedPlan(l, false, requests);
      }
    }
    var requested, used := RequestedConcurrency(l), Distinct(models);
    plan := Plan(true, false, l.perspectives, requests,
                 if requested <= used then requested else used, l.staggerMs, delays);
  }

  /** A plan blocked only by its requests still shows them. */
  function BlockedRequests(c: FieldChecks, r: Option<Revalidation>, l: Launch): seq<Request>
  {
    if r.Some? && ValidRevalidation(c, r.value) && ValidLaunch(c, l)
    then RequestsOf(l, PlannedModels(r.value, l)) else []
  }

  predicate RevalidationBlocks(c: FieldChecks, r: Option<Revalidation>)
  {
    r.None? || !ValidRevalidation(c, r.value)
  }

  /** Only a bad revalidation and too many lanes put labels on the plan. */
  predicate Labelled(c: FieldChecks, r: Option<Revalidation>, l: Launch)
  {
    RevalidationBlocks(c, r) || |l.perspectives| > LANE_CAP
  }

  /** A revalidation without bindings, or with an id, context or model that does not pass its
      check, is no ground for a fan-out, and is named as the cause. */
  lemma BadRevalidationBlocks(c: FieldChecks, check: RequestCheck, r: Revalidation, l: Launch)
    requires || r.bindings == [] || !c.opaqueId(r.cacheId)
             || !ValidContext(c, r.context) || !ScannedContext(c, r.context)
             || exists i :: && 0 <= i < |r.bindings|
                            && !(c.opaqueId(r.bindings[i].entryId) && c.model(r.bindings[i].model))
    ensures !Ready(c, check, Some(r), l) && Labelled(c, Some(r), l)
  {
    if i :| 0 <= i < |r.bindings| && !(c.opaqueId(r.bindings[i].entryId) && c.model(r.bindings[i].model)) {
      assert r.bindings[i] in r.bindings;
    }
  }

  method PlanFanout(c: FieldChecks, check: RequestCheck, r: Option<Revalidation>, l: Launch) returns (plan: Plan)
    ensures plan.ready <==> Ready(c, check, r, l)
    ensures plan.ready ==> Planned(c, check, r, l, plan)
    ensures !plan.ready ==> plan == BlockedPlan(l, Labelled(c, r, l), BlockedRequests(c, r, l))
  {
    var labelled := RevalidationBlocks(c, r);
    if |l.perspectives| > LANE_CAP {
      labelled := true;
    }
    if labelled || !ValidLaunch(c, l) {
      return BlockedPlan(l, labelled, []);
    }
    var bindings := SpreadByModel(ModelOf, r.value.bindings);
    SpreadPermutes(ModelOf, r.value.bindings);
    var models := LaneModels(bindings, |l.perspectives|);
    plan := PlanLanes(check, l, models);
  }

  /** The plan as `PlanFanout` promises it. */
  ghost predicate Planned(c: FieldChecks, check: RequestCheck, r: Option<Revalidation>, l: Launch, plan: Plan)
  {
    Ready(c, check, r, l) && PlanFor(l, PlannedModels(r.value, l), plan)
  }

  /** The clauses of the plan validator on a blocked plan; the id and the labels it copies
      from the revalidation aside. */
  ghost predicate ValidBlockedPlan(c: FieldChecks, check: RequestCheck, l: Launch, plan: Plan)
  {
    && !plan.ready && plan.labelled && c.opaqueId(l.workflowId) && c.opaqueId(l.attemptId)
    && ValidPerspectives(plan.perspectives) && |plan.perspectives| <= LANE_CAP
    && |plan.requests| <= LANE_CAP && (forall q :: q in plan.requests ==> check(l, q))
    && 1 <= plan.maxConcurrent <= LANE_CAP && 0 <= plan.staggerMs <= MAX_STAGGER_MS
    && |plan.delays| <= LANE_CAP && DelaysFit(plan.delays)
  }

  /** A blocked plan passes its validator exactly when the revalidation is what blocks it,
      and ids, perspectives, concurrency and stagger of the launch are in order. A plan
      that the launch or its requests block carries no label, and never passes. */
  lemma BlockedPlanValidIff(c: FieldChecks, check: RequestCheck, r: Option<Revalidation>, l: Launch)
    requires !Ready(c, check, r, l)
    ensures ValidBlockedPlan(c, check, l, BlockedPlan(l, Labelled(c, r, l), BlockedRequests(c, r, l))) <==>
      && RevalidationBlocks(c, r) && c.opaqueId(l.workflowId) && c.opaqueId(l.attemptId)
      && ValidPerspectives(l.perspectives) && |l.perspectives| <= LANE_CAP
      && 1 <= RequestedConcurrency(l) <= LANE_CAP && 0 <= l.staggerMs <= MAX_STAGGER_MS
  {
  }

  /** A launch at an unparseable time, on a good revalidation, gives such a plan. */
  lemma UnparseableTimeNeverValid(c: FieldChecks, check: RequestCheck, r: Revalidation, l: Launch)
    requires ValidRevalidation(c, r) && !Parses(l.requestedAt)
    ensures !Ready(c, check, Some(r), l)
    ensures !ValidBlockedPlan(c, check, l, BlockedPlan(l, Labelled(c, Some(r), l), BlockedRequests(c, Some(r), l)))
  {
    BlockedPlanValidIff(c, check, Some(r), l);
  }

  /** The clauses of the plan validator on a ready plan, those on the delays apart. */
  ghost predicate ValidShape(check: RequestCheck, l: Launch, plan: Plan)
  {
    && plan.ready && ValidPerspectives(plan.perspectives) && |plan.perspectives| <= LANE_CAP
    && |plan.requests| == |plan.perspectives| && (forall q :: q in plan.requests ==> check(l, q))
    && 1 <= plan.maxConcurrent <= LANE_CAP && 0 <= plan.staggerMs <= MAX_STAGGER_MS
    && |plan.delays| == |plan.requests|
  }

  ghost predicate ValidReadyPlan(check: RequestCheck, l: Launch, plan: Plan)
  {
    ValidShape(check, l, plan) && DelaysFit(plan.delays)
  }

  lemma PlannedShape(c: FieldChecks, check: RequestCheck, r: Option<Revalidation>, l: Launch, plan: Plan)
    requires Planned(c, check, r, l, plan)
    ensures ValidShape(check, l, plan)
    ensures l.staggerMs >= 0 && PlannedModels(r.value, l) != []
    ensures DelaysMatch(PlannedModels(r.value, l), l.staggerMs, plan.delays)
  {
    SomeModelUsed(PlannedModels(r.value, l));
  }

  /** A ready plan passes its validator exactly when the largest number of lanes on one
      model, less one, times the stagger is at most the bound on a delay. */
  lemma ReadyPlanValidIff(c: FieldChecks, check: RequestCheck, r: Option<Revalidation>, l: Launch, plan: Plan)
    requires Planned(c, check, r, l, plan)
    ensures ValidReadyPlan(check, l, plan) <==> StaggerFits(PlannedModels(r.value, l), l.staggerMs)
  {
    PlannedShape(c, check, r, l, plan);
    DelaysValidIff(PlannedModels(r.value, l), l.staggerMs, plan.delays);
  }

  /** The last lane on the most repeated model starts within the bound. */
  predicate StaggerFits(models: seq<Text>, stagger: nat)
  {
    (MaxRepeat(models) - 1) * stagger <= MAX_STAGGER_MS
  }

  /** What the plan validator bounds in a ready plan. */
  lemma ReadyPlanBounds(check: RequestCheck, l: Launch, plan: Plan, n: int, i: nat, delay: nat)
    requires ValidReadyPlan(check, l, plan) && i < |plan.delays|
    ensures ValidReadyPlan(check, l, plan.(maxConcurrent := n)) <==> 1 <= n <= 5
    ensures ValidReadyPlan(check, l, plan.(staggerMs := n)) <==> 0 <= n <= 60_000
    ensures ValidReadyPlan(check, l, plan.(delays := plan.delays[i := delay])) <==> delay <= 60_000
    ensures !ValidReadyPlan(check, l, plan.(requests := [])) && !ValidReadyPlan(check, l, plan.(delays := []))
    ensures !ValidReadyPlan(check, l, plan.(perspectives := [])) && !ValidReadyPlan(check, l, plan.(ready := false))
  {
    assert plan.delays[i := delay][i] == delay;
  }

  predicate DelaysFit(delays: seq<nat>)
  {
    forall i :: 0 <= i < |delays| ==> delays[i] <= MAX_STAGGER_MS
  }

  lemma DelaysValidIff(models: seq<Text>, stagger: nat, delays: seq<nat>)
    requires DelaysMatch(models, stagger, delays) && models != []
    ensures DelaysFit(delays) <==> StaggerFits(models, stagger)
  {
    DelaysBoundedIff(models, stagger, MAX_STAGGER_MS);
    SameBound(models, stagger, delays, MAX_STAGGER_MS);
  }

  lemma SameBound(models: seq<Text>, stagger: nat, delays: seq<nat>, bound: nat)
    requires DelaysMatch(models, stagger, delays)
    ensures (forall i :: 0 <= i < |delays| ==> delays[i] <= bound)
       <==> forall i :: 0 <= i < |models| ==> Delay(models, stagger, i) <= bound
  {
  }

  lemma SomeModelUsed(models: seq<Text>)
    requires models != []
    ensures Distinct(models) >= 1
  {
    assert models[0] in Members(models);
  }

  /** Lanes use as many models as there are, one each if they suffice, and never more run
      at once than models are used. */
  lemma PlanUsesMostModels(c: FieldChecks, check: RequestCheck, r: Option<Revalidation>, l: Launch, plan: Plan)
    requires Planned(c, check, r, l, plan)
    ensures var available := Distinct(Map(ModelOf, r.value.bindings));
      && Distinct(PlannedModels(r.value, l)) == (if |l.perspectives| <= available then |l.perspectives| else available)
      && 1 <= plan.maxConcurrent <= Distinct(PlannedModels(r.value, l))
  {
    RoundRobinUsesMostModels(ModelOf, r.value.bindings, |l.perspectives|);
    SomeModelUsed(PlannedModels(r.value, l));
  }

  function EntryModel(e: Entry): Text { e.model }

  /** The models of the bindings are those of the qualified entries. */
  lemma BindingModels(c: CacheChecks, cache: Cache, x: Context)
    requires UniqueIds(cache.entries) && TotalPreorder(c.collate) && Revalidate(c, cache, x).Some?
    ensures var bindings := Revalidate(c, cache, x).value.bindings;
      Members(Map(ModelOf, bindings)) == Members(Map(EntryModel, Filter(Qualified, cache.entries)))
  {
    var bindings := Revalidate(c, cache, x).value.bindings;
    var entries := RevalidatedBindings(c, cache, x);
    var qualified := Filter(Qualified, cache.entries);
    MapPermutes(EntryModel, entries, qualified);
    assert Map(ModelOf, bindings) == Map(EntryModel, entries);
    PermutationMembers(Map(EntryModel, entries), Map(EntryModel, qualified));
  }

  lemma ModelOfQualified(cache: Cache, m: Text)
    requires m in Members(Map(EntryModel, Filter(Qualified, cache.entries)))
    ensures QualifiedModel(cache, m)
  {
    var qualified := Filter(Qualified, cache.entries);
    var j :| 0 <= j < |qualified| && Map(EntryModel, qualified)[j] == m;
    FilterMembers(Qualified, cache.entries);
    assert qualified[j] in qualified;
  }

  /** `m` is the model of an entry that is registered, available and of the highest tier. */
  ghost predicate QualifiedModel(cache: Cache, m: Text)
  {
    exists e :: e in cache.entries && e.registered && e.available && e.highestTier && e.model == m
  }

  /** From the cache to the lanes: with distinct entry ids the plan uses the models of all
      qualified entries if there are lanes enough, one each otherwise ... */
  lemma PlanUsesQualifiedModels(c: CacheChecks, check: RequestCheck, cache: Cache, x: Context, l: Launch, plan: Plan)
    requires UniqueIds(cache.entries) && TotalPreorder(c.collate)
    requires Planned(c.fields, check, Revalidate(c, cache, x), l, plan)
    ensures var models := PlannedModels(Revalidate(c, cache, x).value, l);
      var available := Distinct(Map(EntryModel, Filter(Qualified, cache.entries)));
      Distinct(models) == (if |l.perspectives| <= available then |l.perspectives| else available)
  {
    BindingModels(c, cache, x);
    PlanUsesMostModels(c.fields, check, Revalidate(c, cache, x), l, plan);
  }

  /** ... and no other model. */
  lemma PlanUsesOnlyQualifiedModels(c: CacheChecks, cache: Cache, x: Context, l: Launch, i: nat)
    requires UniqueIds(cache.entries) && TotalPreorder(c.collate)
    requires Revalidate(c, cache, x).Some? && Revalidate(c, cache, x).value.bindings != [] && i < |l.perspectives|
    ensures QualifiedModel(cache, RequestsOf(l, PlannedModels(Revalidate(c, cache, x).value, l))[i].model)
  {
    BindingModels(c, cache, x);
    RequestModel(Revalidate(c, cache, x).value, l, i);
    ModelOfQualified(cache, RequestsOf(l, PlannedModels(Revalidate(c, cache, x).value, l))[i].model);
  }

  lemma RequestModel(r: Revalidation, l: Launch, i: nat)
    requires r.bindings != [] && i < |l.perspectives|
    ensures RequestsOf(l, PlannedModels(r, l))[i].model in Members(Map(ModelOf, r.bindings))
  {
    SpreadPermutes(ModelOf, r.bindings);
    LanesUseOnlyModels(ModelOf, r.bindings, |l.perspectives|);
    var models := PlannedModels(r, l);
    assert models[i] in models;
  }

  /** With a model for every lane all lanes start at once, and the ready plan passes its
      validator whatever the stagger. */
  lemma EnoughModelsAlwaysValid(c: FieldChecks, check: RequestCheck, r: Option<Revalidation>, l: Launch, plan: Plan)
    requires Planned(c, check, r, l, plan) && |l.perspectives| <= Distinct(Map(ModelOf, r.value.bindings))
    ensures forall i :: 0 <= i < |plan.delays| ==> plan.delays[i] == 0
    ensures ValidReadyPlan(check, l, plan)
  {
    var models := PlannedModels(r.value, l);
    RoundRobinUsesMostModels(ModelOf, r.value.bindings, |l.perspectives|);
    PlannedShape(c, check, r, l, plan);
    forall i | 0 <= i < |plan.delays|
      ensures plan.delays[i] == 0
    {
      EnoughModelsNoDelay(models, l.staggerMs, i);
    }
  }

  lemma EnoughModelsNoDelay(models: seq<Text>, stagger: nat, i: nat)
    requires Distinct(models) == |models| && i < |models|
    ensures Delay(models, stagger, i) == 0
  {
    if Occurrences(models[..i], models[i]) > 0 {
      OccursInside(models[..i], models[i]);
      var others := models[..i] + models[i + 1..];
      assert models == models[..i] + ([models[i]] + models[i + 1..]);
      assert Members(models) == Members(others);
      MembersBound(others);
    }
  }

  lemma {:induction false} OccursInside(models: seq<Text>, m: Text)
    requires Occurrences(models, m) > 0
    ensures m in models
  {
    if models[|models| - 1] != m {
      OccursInside(models[..|models| - 1], m);
    }
  }

  lemma {:induction false} MembersBound<T>(s: seq<T>)
    ensures |Members(s)| <= |s|
  {
    if s != [] {
      var front, x := s[..|s| - 1], s[|s| - 1];
      assert s == front + [x];
      MembersBound(front);
      assert Members(s) == Members(front) + {x};
    }
  }

  /** The bounds on input and schedule do not agree: three lanes on the only model at the
      largest stagger the planner accepts make a ready plan its own validator rejects. */
  lemma ReadyPlanMayBeInvalid(c: FieldChecks, check: RequestCheck, r: Revalidation, l: Launch, plan: Plan)
    requires Planned(c, check, Some(r), l, plan)
    requires |r.bindings| == 1 && |l.perspectives| == 3 && l.staggerMs == MAX_STAGGER_MS
    ensures plan.ready && !ValidReadyPlan(check, l, plan)
  {
    var models, m := PlannedModels(r, l), r.bindings[0].model;
    SpreadOfOne(r.bindings);
    assert models == [m, m, m];
    ThreeOccurrences(m);
    MaxRepeatBounds(models, m);
    ReadyPlanValidIff(c, check, Some(r), l, plan);
    TimesMonotone(2, MaxRepeat(models) - 1, MAX_STAGGER_MS);
  }

  lemma ThreeOccurrences(m: Text)
    ensures Occurrences([m, m, m], m) == 3
  {
    assert [m, m, m][..2] == [m, m] && [m, m][..1] == [m];
    assert Occurrences([m], m) == 1;
    assert Occurrences([m, m], m) == 2;
  }

  lemma SpreadOfOne(bindings: seq<Binding>)
    requires |bindings| == 1
    ensures Spread(ModelOf, bindings) == bindings
  {
    assert |bindings| - 1 == 0 && bindings[..0] == [];
    assert Firsts(ModelOf, bindings[..0]) == [] && Repeats(ModelOf, bindings[..0]) == [];
    assert ModelOf(bindings[0]) !in Map(ModelOf, bindings[..0]);
    assert Firsts(ModelOf, bindings) == [bindings[0]] && Repeats(ModelOf, bindings) == [];
  }

  // ---- From provider result to fan-out ---------------------------------------

  /** A good revalidation to one binding, and a launch whose requests pass with its model, make
      a ready fan-out. */
  lemma OneBindingFansOut(c: FieldChecks, check: RequestCheck, r: Revalidation, l: Launch)
    requires ValidRevalidation(c, r) && ValidLaunch(c, l) && |r.bindings| == 1
    requires forall q: Request :: q.model == r.bindings[0].model ==> check(l, q)
    ensures Ready(c, check, Some(r), l)
  {
    SpreadOfOne(r.bindings);
    var models := PlannedModels(r, l);
    forall q | q in RequestsOf(l, models)
      ensures check(l, q)
    {
      assert q.model == r.bindings[0].model;
    }
  }

  /** A cache materialized from an acquired provider result leads, in its own context and
      with a valid launch, to a ready fan-out. */
  lemma MaterializedFansOut(c: CacheChecks, check: RequestCheck, result: ProviderResult, cacheId: Text, entryId: Text,
                            expected: Expectation, l: Launch)
    requires Materialize(c, result, cacheId, entryId, expected).Some? && ValidLaunch(c.fields, l)
    requires forall q: Request :: q.model == result.model ==> check(l, q)
    ensures var cache := Materialize(c, result, cacheId, entryId, expected).value;
      var plan := PlanRefresh(c, Some(cache), result.context);
      Ready(c.fields, check, RevalidateFromEvidence(c, cache, plan, result.context), l)
  {
    MaterializedRevalidates(c, result, cacheId, entryId, expected);
    var r := Revalidation(cacheId, result.context, [Binding(entryId, result.model)]);
    MaterializedIsValid(c, result, cacheId, entryId, expected);
    OneBindingFansOut(c.fields, check, r, l);
  }

  lemma MaterializedIsValid(c: CacheChecks, result: ProviderResult, cacheId: Text, entryId: Text, expected: Expectation)
    requires Materialize(c, result, cacheId, entryId, expected).Some?
    ensures ValidRevalidation(c.fields, Revalidation(cacheId, result.context, [Binding(entryId, result.model)]))
  {
  }
}
