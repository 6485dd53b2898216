/** The agent and model selector: filter the role's registry, order it stably, take the
    first entry that meets every constraint. The main result is that this is an argmin. */
module Selector {
  import opened Collections
  import opened StableSort
  import opened Texts

  datatype Family = Claude | OpenAi | Gemini

  datatype Confidence = High | Medium | Low

  /** `model` is `None` for the harness default. */
  datatype Entry = Entry(
    agent: Text, harness: Text, model: Option<Text>, tier: Option<Text>, family: Family, confidence: Confidence)

  datatype UsageRow = UsageRow(
    family: Family, dispatchable: Option<bool>, nonDispatchable: Option<bool>,
    alert: Option<Alert>, remaining: Option<real>)

  /** Alert labels that block, and all others. */
  datatype Alert = Critical | Exhausted | Stale | NonDispatchable | BlockedAlert | Unavailable | OtherAlert

  /** A request after decoding; an absent option is no constraint. */
  datatype Constraints = Constraints(
    allowedFamilies: set<Family>, agents: Option<set<Text>>, entitled: Option<set<Family>>,
    allowedModels: Option<set<Option<Text>>>, preferred: Option<Text>, tier: Option<Text>,
    prefersReasoning: bool, usage: Option<seq<UsageRow>>)

  datatype Reason = UsageUnavailable | AgentNotAvailable | NotEntitled | NotAllowed | FamilyMismatch

  datatype Selection = Selected(entry: Entry) | Blocked(reason: Reason)

  // ---- Constraints on one entry ----------------------------------------------

  predicate RowAllows(row: UsageRow)
  {
    && row.dispatchable != Some(false) && row.nonDispatchable != Some(true)
    && (row.alert.None? || row.alert.value.OtherAlert?)
    && (row.remaining.None? || row.remaining.value > 0.0)
  }

  /** A family is usable if there is no row for it, or one of its rows allows it. */
  predicate UsageAllows(c: Constraints, family: Family)
  {
    c.usage.None?
    || (forall i :: 0 <= i < |c.usage.value| ==> c.usage.value[i].family != family)
    || exists i :: 0 <= i < |c.usage.value| && c.usage.value[i].family == family && RowAllows(c.usage.value[i])
  }

  predicate AgentAvailable(c: Constraints, e: Entry) { c.agents.None? || e.agent in c.agents.value }

  predicate FamilyEntitled(c: Constraints, e: Entry) { c.entitled.None? || e.family in c.entitled.value }

  /** The constraints looked at in the loop. */
  predicate Meets(c: Constraints, e: Entry)
  {
    AgentAvailable(c, e) && e.family in c.allowedFamilies && FamilyEntitled(c, e) && UsageAllows(c, e.family)
  }

  /** The constraints looked at by the filter. */
  predicate ModelAllowed(c: Constraints, e: Entry)
  {
    && (c.allowedModels.None? || e.model in c.allowedModels.value)
    && (c.preferred.None? || e.model == c.preferred)
    && (c.tier.None? || e.tier == c.tier)
  }

  predicate Admissible(c: Constraints, e: Entry)
  {
    ModelAllowed(c, e) && Meets(c, e)
  }

  // ---- Order -----------------------------------------------------------------

  function ConfidenceScore(e: Entry): nat
  {
    match e.confidence case High => 0 case Medium => 1 case Low => 2
  }

  datatype PreferenceScore = PreferenceScore(preferred: nat, tier: nat, confidence: nat)

  function ScoreOf(c: Constraints, e: Entry): PreferenceScore
  {
    PreferenceScore(if c.preferred.Some? && e.model == c.preferred then 0 else 1,
                    if c.tier.Some? && e.tier == c.tier then 0 else 1, ConfidenceScore(e))
  }

  /** `leftKey[0] - rightKey[0] || leftKey[1] - rightKey[1] || leftKey[2] - rightKey[2]` is not positive. */
  predicate ByPreference(c: Constraints, a: Entry, b: Entry)
  {
    var x, y := ScoreOf(c, a), ScoreOf(c, b);
    if x.preferred != y.preferred then x.preferred < y.preferred
    else if x.tier != y.tier then x.tier < y.tier
    else x.confidence <= y.confidence
  }

  predicate NamedClaude(e: Entry) { e.family.Claude? && e.model.Some? }

  function TierScore(e: Entry): nat
  {
    (if NamedClaude(e) then 0 else 10) + ConfidenceScore(e)
  }

  function Ordered(c: Constraints, registry: seq<Entry>): seq<Entry>
  {
    var filtered := Filter(ModelTest(c), registry);
    if c.preferred.Some? || c.tier.Some? then Sort((a, b) => ByPreference(c, a, b), filtered)
    else if c.prefersReasoning then Sort((a, b) => TierScore(a) <= TierScore(b), filtered)
    else filtered
  }

  function ModelTest(c: Constraints): Entry -> bool { e => ModelAllowed(c, e) }

  function MeetTest(c: Constraints): Entry -> bool { e => Meets(c, e) }

  // ---- The selector ----------------------------------------------------------

  /** The first of `s` that meets the constraints. */
  function FirstMeeting(c: Constraints, s: seq<Entry>): Option<Entry>
  {
    if s == [] then None else if Meets(c, s[0]) then Some(s[0]) else FirstMeeting(c, s[1..])
  }

  ghost predicate StoppedByUsage(c: Constraints, s: seq<Entry>)
  {
    exists e :: && e in s && AgentAvailable(c, e) && e.family in c.allowedFamilies
                && FamilyEntitled(c, e) && !UsageAllows(c, e.family)
  }

  ghost predicate StoppedByAgent(c: Constraints, s: seq<Entry>)
  {
    exists e :: e in s && !AgentAvailable(c, e)
  }

  ghost predicate StoppedByEntitlement(c: Constraints, s: seq<Entry>)
  {
    exists e :: e in s && AgentAvailable(c, e) && e.family in c.allowedFamilies && !FamilyEntitled(c, e)
  }

  ghost function BlockedReason(c: Constraints, s: seq<Entry>): Reason
  {
    if StoppedByUsage(c, s) then UsageUnavailable
    else if StoppedByAgent(c, s) then AgentNotAvailable
    else if StoppedByEntitlement(c, s) then NotEntitled
    else NotAllowed
  }

  ghost function SelectSpec(compatible: Entry -> bool, c: Constraints, registry: seq<Entry>): Selection
  {
    var s := Ordered(c, registry);
    match FirstMeeting(c, s)
    case Some(e) => if compatible(e) then Selected(e) else Blocked(FamilyMismatch)
    case None => Blocked(BlockedReason(c, s))
  }

  /** The loop with its `continue`s and three reason flags. */
  method Select(compatible: Entry -> bool, c: Constraints, registry: seq<Entry>) returns (r: Selection)
    ensures r == SelectSpec(compatible, c, registry)
  {
    var s := Ordered(c, registry);
    var usageBlocked, agentUnavailable, notEntitled := false, false, false;
    for i := 0 to |s|
      invariant FirstMeeting(c, s) == FirstMeeting(c, s[i..])
      invariant usageBlocked <==> StoppedByUsage(c, s[..i])
      invariant agentUnavailable <==> StoppedByAgent(c, s[..i])
      invariant notEntitled <==> StoppedByEntitlement(c, s[..i])
    {
      var e := s[i];
      assert s[i..][1..] == s[i + 1..] && s[..i + 1] == s[..i] + [e];
      assert e in s[..i + 1] && forall x :: x in s[..i + 1] <==> x in s[..i] || x == e;
      if !AgentAvailable(c, e) {
        agentUnavailable := true;
        continue;
      }
      if e.family !in c.allowedFamilies {
        continue;
      }
      if !FamilyEntitled(c, e) {
        notEntitled := true;
        continue;
      }
      if !UsageAllows(c, e.family) {
        usageBlocked := true;
        continue;
      }
      if !compatible(e) {
        return Blocked(FamilyMismatch);
      }
      return Selected(e);
    }
    assert s[..|s|] == s;
    r := Blocked(if usageBlocked then UsageUnavailable else if agentUnavailable then AgentNotAvailable
                 else if notEntitled then NotEntitled else NotAllowed);
  }

  // ---- Argmin ----------------------------------------------------------------

  /** The one number the order comes down to. */
  function Score(c: Constraints, e: Entry): nat
  {
    if c.preferred.Some? || c.tier.Some? then ConfidenceScore(e)
    else if c.prefersReasoning then TierScore(e)
    else 0
  }

  predicate ByScore(c: Constraints, a: Entry, b: Entry) { Score(c, a) <= Score(c, b) }

  /** Among entries that pass the filter the three-part score is just the confidence. */
  lemma PreferenceReducesToConfidence(c: Constraints, a: Entry, b: Entry)
    requires ModelAllowed(c, a) && ModelAllowed(c, b)
    ensures ByPreference(c, a, b) <==> ConfidenceScore(a) <= ConfidenceScore(b)
  {
  }

  /** The sum in the tier score orders lexicographically: named Claude models first, then
      confidence. */
  lemma TierSumIsLexicographic(a: Entry, b: Entry)
    ensures TierScore(a) <= TierScore(b) <==>
      || (NamedClaude(a) && !NamedClaude(b))
      || (NamedClaude(a) == NamedClaude(b) && ConfidenceScore(a) <= ConfidenceScore(b))
  {
  }

  /** Comparators that agree on the elements sort alike. */
  lemma {:induction false} SortAlike<T>(leq: (T, T) -> bool, other: (T, T) -> bool, s: seq<T>)
    requires forall x, y :: x in s && y in s ==> leq(x, y) == other(x, y)
    ensures Sort(leq, s) == Sort(other, s)
    decreases |s|
  {
    if s != [] {
      var front, x := s[..|s| - 1], s[|s| - 1];
      assert s == front + [x];
      assert x in s && forall y :: y in front ==> y in s;
      SortAlike(leq, other, front);
      var sorted := Sort(leq, front);
      SortPermutes(leq, front);
      forall y | y in sorted
        ensures leq(y, x) == other(y, x)
      {
        assert y in multiset(sorted) && y in multiset(front);
      }
      InsertAlike(leq, other, sorted, x);
    }
  }

  lemma {:induction false} InsertAlike<T>(leq: (T, T) -> bool, other: (T, T) -> bool, s: seq<T>, x: T)
    requires forall y :: y in s ==> leq(y, x) == other(y, x)
    ensures Insert(leq, s, x) == Insert(other, s, x)
    decreases |s|
  {
    if s != [] {
      assert s[|s| - 1] in s;
      InsertAlike(leq, other, s[..|s| - 1], x);
    }
  }

  function ScoreOrder(c: Constraints): (Entry, Entry) -> bool { (a, b) => ByScore(c, a, b) }

  lemma ScoreTotal(c: Constraints)
    ensures TotalPreorder(ScoreOrder(c))
  {
  }

  /** Whatever the request, the list is the filtered registry stably sorted by score. */
  lemma OrderedByScore(c: Constraints, registry: seq<Entry>)
    ensures Ordered(c, registry) == Sort(ScoreOrder(c), Filter(ModelTest(c), registry))
  {
    var filtered := Filter(ModelTest(c), registry);
    FilterMembers(ModelTest(c), registry);
    if c.preferred.Some? || c.tier.Some? {
      var leq := (a, b) => ByPreference(c, a, b);
      forall a, b | a in filtered && b in filtered
        ensures leq(a, b) == ScoreOrder(c)(a, b)
      {
        PreferenceReducesToConfidence(c, a, b);
      }
      SortAlike(leq, ScoreOrder(c), filtered);
    } else if c.prefersReasoning {
      var leq := (a: Entry, b: Entry) => TierScore(a) <= TierScore(b);
      SortAlike(leq, ScoreOrder(c), filtered);
    } else {
      SortIdentity(ScoreOrder(c), filtered);
    }
  }

  lemma {:induction false} FirstMeetingIsHead(c: Constraints, s: seq<Entry>)
    ensures var kept := Filter(MeetTest(c), s);
      FirstMeeting(c, s) == if kept == [] then None else Some(kept[0])
  {
    if s != [] {
      FirstMeetingIsHead(c, s[1..]);
      assert s == [s[0]] + s[1..];
      FilterConcat(MeetTest(c), [s[0]], s[1..]);
      assert [s[0]][..0] == [];
      assert Filter(MeetTest(c), [s[0]]) == if Meets(c, s[0]) then [s[0]] else [];
    }
  }

  /** Two filters in a row. */
  lemma {:induction false} FilterTwice<T>(p: T -> bool, q: T -> bool, both: T -> bool, s: seq<T>)
    requires forall x :: x in s ==> both(x) == (p(x) && q(x))
    ensures Filter(q, Filter(p, s)) == Filter(both, s)
    decreases |s|
  {
    if s != [] {
      var front, x := s[..|s| - 1], s[|s| - 1];
      assert s == front + [x] && x in s;
      FilterTwice(p, q, both, front);
      if p(x) {
        assert (Filter(p, front) + [x])[..|Filter(p, front)|] == Filter(p, front);
      }
    }
  }

  /** Registry position of the `k`-th entry kept by a filter. */
  lemma {:induction false} FilterPosition<T>(p: T -> bool, s: seq<T>, k: nat) returns (i: nat)
    requires k < |Filter(p, s)|
    ensures i < |s| && s[i] == Filter(p, s)[k] && p(s[i])
    ensures Filter(p, s[..i]) == Filter(p, s)[..k]
  {
    var front, x := s[..|s| - 1], s[|s| - 1];
    var kept := Filter(p, front);
    if k < |kept| {
      i := FilterPosition(p, front, k);
      assert s[..i] == front[..i];
      assert Filter(p, s)[..k] == kept[..k];
    } else {
      i := |s| - 1;
      assert Filter(p, s)[..k] == kept;
    }
  }

  function AdmissibleTest(c: Constraints): Entry -> bool { e => Admissible(c, e) }

  /** `registry[i]` has the least score of all admissible entries, and is the first such. */
  ghost predicate Best(c: Constraints, registry: seq<Entry>, i: nat)
  {
    && i < |registry| && Admissible(c, registry[i])
    && (forall j :: 0 <= j < |registry| && Admissible(c, registry[j]) ==>
          Score(c, registry[i]) <= Score(c, registry[j]))
    && (forall j :: 0 <= j < i && Admissible(c, registry[j]) ==> Score(c, registry[i]) < Score(c, registry[j]))
  }

  lemma BestOfFiltered(c: Constraints, registry: seq<Entry>, k: nat) returns (i: nat)
    requires LeftmostMinimal(ScoreOrder(c), Filter(AdmissibleTest(c), registry), k)
    ensures Best(c, registry, i) && registry[i] == Filter(AdmissibleTest(c), registry)[k]
  {
    var test := AdmissibleTest(c);
    var kept := Filter(test, registry);
    i := FilterPosition(test, registry, k);
    FilterMembers(test, registry);
    FilterMembers(test, registry[..i]);
    forall j | 0 <= j < |registry| && Admissible(c, registry[j])
      ensures Score(c, registry[i]) <= Score(c, registry[j])
    {
      assert registry[j] in kept;
      var n :| 0 <= n < |kept| && kept[n] == registry[j];
      assert ScoreOrder(c)(kept[k], kept[n]);
    }
    forall j | 0 <= j < i && Admissible(c, registry[j])
      ensures Score(c, registry[i]) < Score(c, registry[j])
    {
      assert registry[j] in registry[..i];
      assert registry[j] in kept[..k];
      var n :| 0 <= n < k && kept[n] == registry[j];
      assert !ScoreOrder(c)(kept[n], kept[k]);
    }
  }

  /** The first entry of the ordered list that meets the constraints is the head of the
      admissible entries sorted by score. */
  lemma FirstMeetingSorted(c: Constraints, registry: seq<Entry>)
    ensures var sorted := Sort(ScoreOrder(c), Filter(AdmissibleTest(c), registry));
      FirstMeeting(c, Ordered(c, registry)) == if sorted == [] then None else Some(sorted[0])
  {
    ScoreTotal(c);
    OrderedByScore(c, registry);
    FirstMeetingIsHead(c, Ordered(c, registry));
    FilterSort(ScoreOrder(c), MeetTest(c), Filter(ModelTest(c), registry));
    FilterTwice(ModelTest(c), MeetTest(c), AdmissibleTest(c), registry);
  }

  /** There is only one such entry. */
  lemma BestIsUnique(c: Constraints, registry: seq<Entry>, i: nat, j: nat)
    requires Best(c, registry, i) && Best(c, registry, j)
    ensures i == j
  {
  }

  /** For any registry: filter, stable sort and first match come to the admissible entry of
      least score, the earliest among equals. It is selected if it is compatible, and
      otherwise blocks the request; without an admissible entry the reason is reported. */
  lemma SelectIsArgmin(compatible: Entry -> bool, c: Constraints, registry: seq<Entry>)
    ensures (forall e :: e in registry ==> !Admissible(c, e)) ==>
      SelectSpec(compatible, c, registry) == Blocked(BlockedReason(c, Ordered(c, registry)))
    ensures (exists e :: e in registry && Admissible(c, e)) ==> exists i: nat :: i < |registry| && Best(c, registry, i)
    ensures forall i: nat :: i < |registry| && Best(c, registry, i) ==>
      SelectSpec(compatible, c, registry)
      == if compatible(registry[i]) then Selected(registry[i]) else Blocked(FamilyMismatch)
  {
    var kept := Filter(AdmissibleTest(c), registry);
    FilterMembers(AdmissibleTest(c), registry);
    FirstMeetingSorted(c, registry);
    if kept == [] {
      assert forall e :: e in registry ==> !AdmissibleTest(c)(e);
      assert forall i: nat :: i < |registry| ==> registry[i] in registry;
    } else {
      assert kept[0] in kept;
      ScoreTotal(c);
      var k := SortHead(ScoreOrder(c), kept);
      var i := BestOfFiltered(c, registry, k);
      assert registry[i] in registry;
      forall j: nat | j < |registry| && Best(c, registry, j)
        ensures j == i
      {
        BestIsUnique(c, registry, i, j);
      }
    }
  }

  // ---- What a request admits -------------------------------------------------

  /** The constraints of a request one by one; what it leaves out constrains nothing. */
  lemma AdmissibleMeans(c: Constraints, e: Entry)
    ensures Admissible(c, e) <==>
      && e.family in c.allowedFamilies
      && (forall agents :: c.agents == Some(agents) ==> e.agent in agents)
      && (forall families :: c.entitled == Some(families) ==> e.family in families)
      && (forall models :: c.allowedModels == Some(models) ==> e.model in models)
      && (forall model :: c.preferred == Some(model) ==> e.model == Some(model))
      && (forall tier :: c.tier == Some(tier) ==> e.tier == Some(tier))
      && UsageAllows(c, e.family)
  {
  }

  /** One usage row of a family lets it through exactly if it does not say that the family
      cannot be dispatched to, carries no blocking alert, and shows something remaining. */
  lemma UsageRowDecides(c: Constraints, e: Entry, row: UsageRow)
    requires Admissible(c.(usage := None), e) && row.family == e.family
    ensures Admissible(c.(usage := Some([row])), e) <==>
      && (row.dispatchable.Some? ==> row.dispatchable.value)
      && (row.nonDispatchable.Some? ==> !row.nonDispatchable.value)
      && row.alert in {None, Some(OtherAlert)} && (row.remaining.Some? ==> row.remaining.value > 0.0)
  {
    var d := c.(usage := Some([row]));
    assert d.usage.value[0] == row;
    assert UsageAllows(d, e.family) <==> RowAllows(row);
  }

  /** Of several rows of a family one good one is enough; without a row nothing is asked. */
  lemma OneGoodRowIsEnough(c: Constraints, e: Entry, rows: seq<UsageRow>)
    ensures Admissible(c.(usage := Some(rows)), e) <==>
      && Admissible(c.(usage := None), e)
      && ((forall i :: 0 <= i < |rows| ==> rows[i].family != e.family)
          || exists i :: 0 <= i < |rows| && rows[i].family == e.family && Admissible(c.(usage := Some([rows[i]])), e))
  {
    forall i | 0 <= i < |rows| && rows[i].family == e.family && Admissible(c.(usage := None), e)
      ensures Admissible(c.(usage := Some([rows[i]])), e) <==> RowAllows(rows[i])
    {
      assert [rows[i]][0] == rows[i];
    }
  }

  // ---- What is selected ------------------------------------------------------

  /** `registry[i]` is the first of the entries `among` admits that carries the best confidence
      any of these carries: high if there is a high one, else medium if there is one. */
  ghost predicate FirstOfBestConfidence(registry: seq<Entry>, among: Entry -> bool, i: nat)
  {
    && i < |registry| && among(registry[i])
    && ((exists j :: 0 <= j < |registry| && among(registry[j]) && registry[j].confidence == High)
        ==> registry[i].confidence == High)
    && ((exists j :: 0 <= j < |registry| && among(registry[j]) && registry[j].confidence == Medium)
        ==> registry[i].confidence != Low)
    && forall j :: 0 <= j < i && among(registry[j]) ==> registry[j].confidence != registry[i].confidence
  }

  function Named(c: Constraints): Entry -> bool
  {
    e => Admissible(c, e) && e.family == Claude && e.model != None
  }

  lemma BestByConfidence(c: Constraints, registry: seq<Entry>, i: nat)
    requires Best(c, registry, i) && (c.preferred.Some? || c.tier.Some?)
    ensures FirstOfBestConfidence(registry, AdmissibleTest(c), i)
  {
    assert forall j :: 0 <= j < |registry| && Admissible(c, registry[j]) ==> AdmissibleTest(c)(registry[j]);
  }

  lemma BestByReasoning(c: Constraints, registry: seq<Entry>, i: nat)
    requires Best(c, registry, i) && c.preferred.None? && c.tier.None? && c.prefersReasoning
    ensures if exists j :: 0 <= j < |registry| && Named(c)(registry[j])
            then FirstOfBestConfidence(registry, Named(c), i)
            else FirstOfBestConfidence(registry, AdmissibleTest(c), i)
  {
    if j :| 0 <= j < |registry| && Named(c)(registry[j]) {
      assert Score(c, registry[i]) <= Score(c, registry[j]) < 10;
      assert Named(c)(registry[i]);
    } else {
      assert forall j :: 0 <= j < |registry| && Admissible(c, registry[j]) ==> !NamedClaude(registry[j]);
    }
  }

  /** What a request gets, without scores. Asking for a model or a tier gets the first of the
      most confident admissible entries; asking for reasoning gets it among the named Claude
      models if one is admissible, and among all if not; any other request gets the first
      admissible entry of the table. */
  lemma SelectedEntry(compatible: Entry -> bool, c: Constraints, registry: seq<Entry>) returns (i: nat)
    requires SelectSpec(compatible, c, registry).Selected?
    ensures i < |registry| && SelectSpec(compatible, c, registry) == Selected(registry[i])
    ensures c.preferred != None || c.tier != None ==> FirstOfBestConfidence(registry, AdmissibleTest(c), i)
    ensures c.preferred == None && c.tier == None && c.prefersReasoning ==>
      if exists j :: 0 <= j < |registry| && Named(c)(registry[j]) then FirstOfBestConfidence(registry, Named(c), i)
      else FirstOfBestConfidence(registry, AdmissibleTest(c), i)
    ensures c.preferred == None && c.tier == None && !c.prefersReasoning ==>
      Admissible(c, registry[i]) && forall j :: 0 <= j < i ==> !Admissible(c, registry[j])
  {
    SelectIsArgmin(compatible, c, registry);
    i :| i < |registry| && Best(c, registry, i);
    if c.preferred.Some? || c.tier.Some? {
      BestByConfidence(c, registry, i);
    } else if c.prefersReasoning {
      BestByReasoning(c, registry, i);
    }
  }

  /** With a compatible registry a request is blocked exactly when nothing is admissible. */
  lemma CompatibleRegistrySelects(compatible: Entry -> bool, c: Constraints, registry: seq<Entry>)
    requires forall e :: e in registry ==> compatible(e)
    ensures SelectSpec(compatible, c, registry).Blocked? <==> forall e :: e in registry ==> !Admissible(c, e)
  {
    SelectIsArgmin(compatible, c, registry);
    assert forall i: nat :: i < |registry| ==> registry[i] in registry;
  }

  // ---- Loosening -------------------------------------------------------------

  predicate Wider<T>(a: Option<set<T>>, b: Option<set<T>>)
  {
    b.None? || (a.Some? && a.value <= b.value)
  }

  /** `b` constrains no more than `a`. */
  ghost predicate Looser(a: Constraints, b: Constraints)
  {
    && a.allowedFamilies <= b.allowedFamilies && Wider(a.agents, b.agents) && Wider(a.entitled, b.entitled)
    && Wider(a.allowedModels, b.allowedModels)
    && (b.preferred.None? || b.preferred == a.preferred) && (b.tier.None? || b.tier == a.tier)
    && forall f :: UsageAllows(a, f) ==> UsageAllows(b, f)
  }

  /** A request that selects still selects after loosening exactly when the entry that is
      best under the looser constraints is compatible. */
  lemma LooseningKeepsSelectionIff(compatible: Entry -> bool, a: Constraints, b: Constraints, registry: seq<Entry>)
    requires Looser(a, b) && SelectSpec(compatible, a, registry).Selected?
    ensures exists i: nat :: i < |registry| && Best(b, registry, i)
    ensures forall i: nat :: i < |registry| && Best(b, registry, i) ==>
      (SelectSpec(compatible, b, registry).Selected? <==> compatible(registry[i]))
  {
    SelectIsArgmin(compatible, a, registry);
    SelectIsArgmin(compatible, b, registry);
    var e :| e in registry && Admissible(a, e);
    assert Admissible(b, e);
  }

  /** So with a compatible registry loosening never turns a selection into a block. */
  lemma LooseningKeepsSelection(compatible: Entry -> bool, a: Constraints, b: Constraints, registry: seq<Entry>)
    requires forall e :: e in registry ==> compatible(e)
    requires Looser(a, b) && SelectSpec(compatible, a, registry).Selected?
    ensures SelectSpec(compatible, b, registry).Selected?
  {
    LooseningKeepsSelectionIff(compatible, a, b, registry);
    assert forall i: nat :: i < |registry| ==> registry[i] in registry;
  }
}
