/** Merging policy packs into a project configuration: a fold in stable priority order
    that may only narrow. */
module PolicyMerge {
  import opened Collections
  import opened StableSort
  import opened Texts

  datatype Mode =
    | ChatRouted | RealDispatch | ManagedFallback | LaneLaunch | HardChatBlocking
    | WorkflowOptimization | SpecialistWorkflow

  datatype Deletion = DeleteAfterExpiry | KeepUntilPolicyExpiry | ManualCleanupOnly

  datatype Retention = Retention(session: real, debug: real, conformance: real, allowLonger: bool, deletion: Deletion)

  /** The usage and health fields that are not fixed to a single legal value. */
  datatype Usage = Usage(ttlMinutes: real, allowLocalHistory: bool)

  datatype Degraded = DiagnosticOnly | NonDispatchable

  datatype Health = Health(ttlMinutes: real, degraded: Degraded)

  datatype ChatMode = Steering | ObserveOnly | ChatOff

  datatype HookMode = Enforce | Observe | HookOff

  datatype Hook = Hook(chat: ChatMode, mode: HookMode, blockingChat: bool, hardCancel: bool)

  datatype Effect = Allow | Deny | RequireApproval | DisableMode

  datatype Target = ReleaseMode | Tool | PermissionClass | ProviderFamily | AgentProfile | RetentionTarget | Extension

  datatype Rule = Rule(id: Text, effect: Effect, target: Target, summary: Text, refs: seq<Text>)

  datatype Config = Config(
    hash: Text, chat: ChatMode, hookMode: HookMode, retention: Retention, usage: Usage, health: Health,
    disabled: seq<Mode>)

  datatype Pack = Pack(
    hash: Text, priority: real, rules: seq<Rule>, retention: Option<Retention>, usage: Option<Usage>,
    health: Option<Health>, hook: Option<Hook>)

  datatype Options = Options(id: Text, computedAt: Stamp, auditRef: Text)

  datatype Effective = Effective(
    id: Text, configHash: Text, packHashes: seq<Text>, computedAt: Stamp, disabled: set<Mode>,
    retention: Retention, usage: Usage, health: Health, hook: Hook, rules: seq<Rule>, auditRef: Text)

  /** The string checks, kept abstract. */
  datatype PolicyChecks = PolicyChecks(id: Text -> bool, hash: Text -> bool, clean: Text -> bool)

  // ---- Validation ------------------------------------------------------------

  const DEFAULT_DISABLED: set<Mode> := {RealDispatch, ManagedFallback, LaneLaunch, HardChatBlocking}

  predicate WithinDefaults(r: Retention)
  {
    r.session <= 14.0 && r.debug <= 7.0 && r.conformance <= 30.0
  }

  predicate ValidRetention(r: Retention, mayLengthen: bool)
  {
    && r.session >= 0.0 && r.debug >= 0.0 && r.conformance >= 0.0
    && (r.allowLonger || WithinDefaults(r)) && (r.allowLonger ==> mayLengthen)
  }

  predicate ValidUsage(u: Usage) { u.ttlMinutes >= 0.0 }

  predicate ValidHealth(h: Health) { h.ttlMinutes >= 0.0 }

  predicate ValidHook(h: Hook) { !h.blockingChat && !h.hardCancel }

  predicate ValidRule(c: PolicyChecks, r: Rule)
  {
    && c.id(r.id) && !r.effect.Allow? && 1 <= |r.summary| <= 160 && c.clean(r.summary)
    && forall ref :: ref in r.refs ==> c.id(ref)
  }

  predicate ModeSafety(disabled: set<Mode>, mode: HookMode)
  {
    DEFAULT_DISABLED <= disabled && (mode.Enforce? || ChatRouted in disabled)
  }

  predicate ValidConfig(c: PolicyChecks, g: Config)
  {
    && c.hash(g.hash) && ValidRetention(g.retention, true) && ValidUsage(g.usage) && ValidHealth(g.health)
    && ModeSafety(Modes(g.disabled), g.hookMode)
  }

  predicate ValidPack(c: PolicyChecks, p: Pack)
  {
    && c.hash(p.hash) && (forall r :: r in p.rules ==> ValidRule(c, r))
    && (p.retention.Some? ==> ValidRetention(p.retention.value, false))
    && (p.usage.Some? ==> ValidUsage(p.usage.value))
    && (p.health.Some? ==> ValidHealth(p.health.value))
    && (p.hook.Some? ==> ValidHook(p.hook.value) && p.hook.value.mode.Enforce?)
  }

  predicate ValidEffective(c: PolicyChecks, e: Effective)
  {
    && c.id(e.id) && c.hash(e.configHash) && (forall h :: h in e.packHashes ==> c.hash(h))
    && e.computedAt.ms.Some? && c.clean(e.computedAt.text)
    && ModeSafety(e.disabled, e.hook.mode) && ValidRetention(e.retention, true)
    && ValidUsage(e.usage) && ValidHealth(e.health) && ValidHook(e.hook)
    && (forall r :: r in e.rules ==> ValidRule(c, r)) && c.id(e.auditRef)
  }

  predicate ValidOptions(c: PolicyChecks, o: Options)
  {
    c.id(o.id) && o.computedAt.ms.Some? && c.clean(o.computedAt.text) && c.id(o.auditRef)
  }

  // ---- Narrowing -------------------------------------------------------------

  function Min(a: real, b: real): real { if b < a then b else a }

  function ShortestRetention(base: Retention, override: Option<Retention>): Retention
  {
    if override.None? then base
    else
      var o := override.value;
      Retention(Min(base.session, o.session), Min(base.debug, o.debug), Min(base.conformance, o.conformance),
                base.allowLonger && o.allowLonger,
                if base.deletion.DeleteAfterExpiry? || o.deletion.DeleteAfterExpiry? then DeleteAfterExpiry
                else o.deletion)
  }

  function NarrowUsage(base: Usage, override: Option<Usage>): Usage
  {
    if override.None? then base
    else Usage(Min(base.ttlMinutes, override.value.ttlMinutes),
               base.allowLocalHistory && override.value.allowLocalHistory)
  }

  function NarrowHealth(base: Health, override: Option<Health>): Health
  {
    if override.None? then base
    else Health(Min(base.ttlMinutes, override.value.ttlMinutes),
                if base.degraded.NonDispatchable? || override.value.degraded.NonDispatchable? then NonDispatchable
                else DiagnosticOnly)
  }

  function HookRank(m: HookMode): int
  {
    match m case Enforce => 0 case Observe => 1 case HookOff => 2
  }

  function NarrowHook(base: Hook, override: Option<Hook>): Hook
  {
    if override.None? then base
    else
      var o := override.value;
      Hook(if o.chat.ChatOff? then ChatOff else base.chat,
           if HookRank(o.mode) > HookRank(base.mode) then o.mode else base.mode, false, false)
  }

  predicate DisablesOptimization(r: Rule)
  {
    && r.effect.DisableMode?
    && (|| r.target.ReleaseMode? || r.target.Tool? || r.target.ProviderFamily?
        || r.target.AgentProfile? || r.target.Extension?)
  }

  function ModesOfRule(r: Rule): set<Mode>
  {
    (if DisablesOptimization(r) then {WorkflowOptimization} else {})
    + (if r.effect.RequireApproval? then {RealDispatch} else {})
  }

  function Modes(s: seq<Mode>): set<Mode>
  {
    set m | m in s
  }

  // ---- The fold --------------------------------------------------------------

  predicate ByPriority(a: Pack, b: Pack) { a.priority <= b.priority }

  function InOrder(packs: seq<Pack>): seq<Pack>
  {
    Sort(ByPriority, packs)
  }

  function RetentionAfter(base: Retention, s: seq<Pack>): Retention
  {
    if s == [] then base else ShortestRetention(RetentionAfter(base, s[..|s| - 1]), s[|s| - 1].retention)
  }

  function UsageAfter(base: Usage, s: seq<Pack>): Usage
  {
    if s == [] then base else NarrowUsage(UsageAfter(base, s[..|s| - 1]), s[|s| - 1].usage)
  }

  function HealthAfter(base: Health, s: seq<Pack>): Health
  {
    if s == [] then base else NarrowHealth(HealthAfter(base, s[..|s| - 1]), s[|s| - 1].health)
  }

  function HookAfter(base: Hook, s: seq<Pack>): Hook
  {
    if s == [] then base else NarrowHook(HookAfter(base, s[..|s| - 1]), s[|s| - 1].hook)
  }

  function RulesAfter(s: seq<Pack>): seq<Rule>
  {
    if s == [] then [] else RulesAfter(s[..|s| - 1]) + s[|s| - 1].rules
  }

  /** The modes disabled by some rule of some pack, besides the given ones. */
  ghost function DisabledBy(base: set<Mode>, rules: seq<Rule>): set<Mode>
  {
    base + set r, m | r in rules && m in ModesOfRule(r) :: m
  }

  ghost function Merged(g: Config, packs: seq<Pack>, o: Options): Effective
  {
    var s := InOrder(packs);
    Effective(o.id, g.hash, Map((p: Pack) => p.hash, packs), o.computedAt,
              DisabledBy(DEFAULT_DISABLED + Modes(g.disabled), RulesAfter(s)),
              RetentionAfter(g.retention, s), UsageAfter(g.usage, s), HealthAfter(g.health, s),
              HookAfter(Hook(g.chat, g.hookMode, false, false), s), RulesAfter(s), o.auditRef)
  }

  /** Merging is refused exactly for an invalid configuration or pack. */
  ghost function MergeSpec(c: PolicyChecks, g: Config, packs: seq<Pack>, o: Options): Option<Effective>
  {
    if ValidConfig(c, g) && (forall p :: p in packs ==> ValidPack(c, p)) then Some(Merged(g, packs, o)) else None
  }

  /** The merge itself; `None` where the program throws on an invalid input. */
  method Merge(c: PolicyChecks, g: Config, packs: seq<Pack>, o: Options) returns (r: Option<Effective>)
    ensures r == MergeSpec(c, g, packs, o)
  {
    if !ValidConfig(c, g) {
      return None;
    }
    for i := 0 to |packs|
      invariant forall j :: 0 <= j < i ==> ValidPack(c, packs[j])
    {
      if !ValidPack(c, packs[i]) {
        assert packs[i] in packs;
        return None;
      }
    }
    var s := InOrder(packs);
    var disabled := DEFAULT_DISABLED + Modes(g.disabled);
    var retention, usage, health := g.retention, g.usage, g.health;
    var hook := Hook(g.chat, g.hookMode, false, false);
    var rules: seq<Rule> := [];
    ghost var base := disabled;
    for i := 0 to |s|
      invariant retention == RetentionAfter(g.retention, s[..i])
      invariant usage == UsageAfter(g.usage, s[..i])
      invariant health == HealthAfter(g.health, s[..i])
      invariant hook == HookAfter(Hook(g.chat, g.hookMode, false, false), s[..i])
      invariant rules == RulesAfter(s[..i]) && disabled == DisabledBy(base, rules)
    {
      assert s[..i + 1][..i] == s[..i];
      retention := ShortestRetention(retention, s[i].retention);
      usage := NarrowUsage(usage, s[i].usage);
      health := NarrowHealth(health, s[i].health);
      hook := NarrowHook(hook, s[i].hook);
      rules, disabled := AddRules(base, rules, disabled, s[i].rules);
    }
    assert s[..|s|] == s;
    return Some(Effective(o.id, g.hash, Map((p: Pack) => p.hash, packs), o.computedAt, disabled,
                          retention, usage, health, hook, rules, o.auditRef));
  }

  /** The inner loop over the rules of one pack. */
  method AddRules(ghost base: set<Mode>, before: seq<Rule>, modes: set<Mode>, more: seq<Rule>)
    returns (rules: seq<Rule>, disabled: set<Mode>)
    requires modes == DisabledBy(base, before)
    ensures rules == before + more && disabled == DisabledBy(base, rules)
  {
    rules, disabled := before, modes;
    for j := 0 to |more|
      invariant rules == before + more[..j] && disabled == DisabledBy(base, rules)
    {
      var rule := more[j];
      DisabledStep(base, rules, rule);
      rules := rules + [rule];
      if DisablesOptimization(rule) {
        disabled := disabled + {WorkflowOptimization};
      }
      if rule.effect == RequireApproval {
        disabled := disabled + {RealDispatch};
      }
      assert before + more[..j + 1] == before + more[..j] + [rule];
    }
    assert more[..|more|] == more;
  }

  lemma DisabledStep(base: set<Mode>, rules: seq<Rule>, rule: Rule)
    ensures DisabledBy(base, rules + [rule]) == DisabledBy(base, rules) + ModesOfRule(rule)
  {
  }

  // ---- What the fold computes ------------------------------------------------

  /** `x` is the least of the base value and the overrides: a bound that is attained. */
  ghost predicate Least(x: real, base: real, s: seq<Pack>, pick: Pack -> Option<real>)
  {
    && x <= base && (forall p :: p in s && pick(p).Some? ==> x <= pick(p).value)
    && (x == base || exists p :: p in s && pick(p) == Some(x))
  }

  function SessionOf(p: Pack): Option<real> { if p.retention.Some? then Some(p.retention.value.session) else None }

  function DebugOf(p: Pack): Option<real> { if p.retention.Some? then Some(p.retention.value.debug) else None }

  function ConformanceOf(p: Pack): Option<real>
  {
    if p.retention.Some? then Some(p.retention.value.conformance) else None
  }

  function UsageTtlOf(p: Pack): Option<real> { if p.usage.Some? then Some(p.usage.value.ttlMinutes) else None }

  function HealthTtlOf(p: Pack): Option<real> { if p.health.Some? then Some(p.health.value.ttlMinutes) else None }

  lemma LeastStep(x: real, base: real, s: seq<Pack>, p: Pack, pick: Pack -> Option<real>)
    requires Least(x, base, s, pick)
    ensures Least(if pick(p).Some? then Min(x, pick(p).value) else x, base, s + [p], pick)
  {
  }

  /** The least value depends on the set of packs only. */
  lemma LeastUnique(x: real, y: real, base: real, s: seq<Pack>, t: seq<Pack>, pick: Pack -> Option<real>)
    requires Least(x, base, s, pick) && Least(y, base, t, pick) && forall p :: p in s <==> p in t
    ensures x == y
  {
  }

  predicate LimitsLonger(p: Pack) { p.retention.Some? && !p.retention.value.allowLonger }

  predicate ForbidsHistory(p: Pack) { p.usage.Some? && !p.usage.value.allowLocalHistory }

  predicate StopsDegraded(p: Pack) { p.health.Some? && p.health.value.degraded.NonDispatchable? }

  predicate TurnsChatOff(p: Pack) { p.hook.Some? && p.hook.value.chat.ChatOff? }

  predicate DeletesAfterExpiry(p: Pack) { p.retention.Some? && p.retention.value.deletion.DeleteAfterExpiry? }

  ghost predicate AnyPack(test: Pack -> bool, s: seq<Pack>)
  {
    exists p :: p in s && test(p)
  }

  lemma SomeStep(test: Pack -> bool, s: seq<Pack>, p: Pack)
    ensures AnyPack(test, s + [p]) <==> AnyPack(test, s) || test(p)
  {
  }

  /** The merged retention: least limits, longer retention only if everybody allows it. */
  lemma {:induction false} RetentionMeans(base: Retention, s: seq<Pack>)
    ensures var r := RetentionAfter(base, s);
      && Least(r.session, base.session, s, SessionOf) && Least(r.debug, base.debug, s, DebugOf)
      && Least(r.conformance, base.conformance, s, ConformanceOf)
      && (r.allowLonger <==> base.allowLonger && !AnyPack(LimitsLonger, s))
      && (r.deletion.DeleteAfterExpiry? <==> base.deletion.DeleteAfterExpiry? || AnyPack(DeletesAfterExpiry, s))
  {
    if s != [] {
      var front, p := s[..|s| - 1], s[|s| - 1];
      assert s == front + [p];
      RetentionMeans(base, front);
      var r := RetentionAfter(base, front);
      LeastStep(r.session, base.session, front, p, SessionOf);
      LeastStep(r.debug, base.debug, front, p, DebugOf);
      LeastStep(r.conformance, base.conformance, front, p, ConformanceOf);
      SomeStep(LimitsLonger, front, p);
      SomeStep(DeletesAfterExpiry, front, p);
    }
  }

  lemma {:induction false} UsageMeans(base: Usage, s: seq<Pack>)
    ensures var u := UsageAfter(base, s);
      && Least(u.ttlMinutes, base.ttlMinutes, s, UsageTtlOf)
      && (u.allowLocalHistory <==> base.allowLocalHistory && !AnyPack(ForbidsHistory, s))
  {
    if s != [] {
      var front, p := s[..|s| - 1], s[|s| - 1];
      assert s == front + [p];
      UsageMeans(base, front);
      LeastStep(UsageAfter(base, front).ttlMinutes, base.ttlMinutes, front, p, UsageTtlOf);
      SomeStep(ForbidsHistory, front, p);
    }
  }

  lemma {:induction false} HealthMeans(base: Health, s: seq<Pack>)
    ensures var h := HealthAfter(base, s);
      && Least(h.ttlMinutes, base.ttlMinutes, s, HealthTtlOf)
      && (h.degraded.NonDispatchable? <==> base.degraded.NonDispatchable? || AnyPack(StopsDegraded, s))
  {
    if s != [] {
      var front, p := s[..|s| - 1], s[|s| - 1];
      assert s == front + [p];
      HealthMeans(base, front);
      LeastStep(HealthAfter(base, front).ttlMinutes, base.ttlMinutes, front, p, HealthTtlOf);
      SomeStep(StopsDegraded, front, p);
    }
  }

  /** Packs can turn the chat intake off; the hook mode stays the configured one, since
      a valid pack only ever asks for the strictest. */
  lemma {:induction false} HookMeans(base: Hook, s: seq<Pack>)
    requires ValidHook(base) && forall p :: p in s && p.hook.Some? ==> p.hook.value.mode.Enforce?
    ensures var h := HookAfter(base, s);
      && h.chat == (if AnyPack(TurnsChatOff, s) then ChatOff else base.chat)
      && h.mode == base.mode && ValidHook(h)
  {
    if s != [] {
      var front, p := s[..|s| - 1], s[|s| - 1];
      assert s == front + [p];
      HookMeans(base, front);
      SomeStep(TurnsChatOff, front, p);
    }
  }

  lemma {:induction false} RulesMean(s: seq<Pack>, r: Rule)
    ensures r in RulesAfter(s) <==> exists p :: p in s && r in p.rules
  {
    if s != [] {
      var front, p := s[..|s| - 1], s[|s| - 1];
      assert s == front + [p];
      RulesMean(front, r);
      assert p in s;
    }
  }

  lemma InOrderMembers(packs: seq<Pack>)
    ensures forall p :: p in InOrder(packs) <==> p in packs
  {
    SortPermutes(ByPriority, packs);
    PermutationMembers(packs, InOrder(packs));
  }

  // ---- Main results ----------------------------------------------------------

  /** Merging valid packs into a valid configuration gives a policy the effective-policy
      validator accepts. */
  lemma MergedIsValid(c: PolicyChecks, g: Config, packs: seq<Pack>, o: Options)
    requires ValidConfig(c, g) && (forall p :: p in packs ==> ValidPack(c, p)) && ValidOptions(c, o)
    ensures ValidEffective(c, Merged(g, packs, o))
  {
    var s, e := InOrder(packs), Merged(g, packs, o);
    InOrderMembers(packs);
    RetentionStaysValid(c, g.retention, s);
    UsageMeans(g.usage, s);
    HealthMeans(g.health, s);
    HookMeans(Hook(g.chat, g.hookMode, false, false), s);
    forall r | r in e.rules
      ensures ValidRule(c, r)
    {
      RulesMean(s, r);
    }
  }

  // ---- What the merge accepts ------------------------------------------------

  lemma AcceptsOne(c: PolicyChecks, g: Config, p: Pack, o: Options)
    ensures MergeSpec(c, g, [p], o).Some? <==> ValidConfig(c, g) && ValidPack(c, p)
  {
    assert p in [p];
  }

  /** An override of the retention is accepted exactly within 14, 7 and 30 days, and if it
      does not itself allow longer ones. */
  lemma RetentionOverrideDecides(c: PolicyChecks, g: Config, p: Pack, o: Options, r: Retention)
    requires MergeSpec(c, g, [p], o).Some?
    ensures MergeSpec(c, g, [p.(retention := Some(r))], o).Some? <==>
      0.0 <= r.session <= 14.0 && 0.0 <= r.debug <= 7.0 && 0.0 <= r.conformance <= 30.0 && !r.allowLonger
  {
    AcceptsOne(c, g, p, o);
    AcceptsOne(c, g, p.(retention := Some(r)), o);
  }

  /** The configuration may go beyond these bounds if it allows longer retention. */
  lemma ConfiguredRetentionDecides(c: PolicyChecks, g: Config, packs: seq<Pack>, o: Options, r: Retention)
    requires MergeSpec(c, g, packs, o).Some?
    ensures MergeSpec(c, g.(retention := r), packs, o).Some? <==>
      && r.session >= 0.0 && r.debug >= 0.0 && r.conformance >= 0.0
      && (r.allowLonger || (r.session <= 14.0 && r.debug <= 7.0 && r.conformance <= 30.0))
  {
  }

  /** It must disable the four modes of the first release, and chat routing too unless hooks
      are enforced. */
  lemma ConfiguredModesDecide(c: PolicyChecks, g: Config, packs: seq<Pack>, o: Options,
                              mode: HookMode, disabled: seq<Mode>)
    requires MergeSpec(c, g, packs, o).Some?
    ensures MergeSpec(c, g.(hookMode := mode, disabled := disabled), packs, o).Some? <==>
      && RealDispatch in disabled && ManagedFallback in disabled && LaneLaunch in disabled
      && HardChatBlocking in disabled && (mode == Enforce || ChatRouted in disabled)
  {
    assert RealDispatch in DEFAULT_DISABLED && ManagedFallback in DEFAULT_DISABLED;
    assert LaneLaunch in DEFAULT_DISABLED && HardChatBlocking in DEFAULT_DISABLED;
  }

  /** Freshness limits are not negative. */
  lemma UsageOverrideDecides(c: PolicyChecks, g: Config, p: Pack, o: Options, u: Usage)
    requires MergeSpec(c, g, [p], o).Some?
    ensures MergeSpec(c, g, [p.(usage := Some(u))], o).Some? <==> u.ttlMinutes >= 0.0
  {
    AcceptsOne(c, g, p, o);
    AcceptsOne(c, g, p.(usage := Some(u)), o);
  }

  lemma HealthOverrideDecides(c: PolicyChecks, g: Config, p: Pack, o: Options, h: Health)
    requires MergeSpec(c, g, [p], o).Some?
    ensures MergeSpec(c, g, [p.(health := Some(h))], o).Some? <==> h.ttlMinutes >= 0.0
  {
    AcceptsOne(c, g, p, o);
    AcceptsOne(c, g, p.(health := Some(h)), o);
  }

  /** A pack can neither loosen the hooks nor cancel chats. */
  lemma HookOverrideDecides(c: PolicyChecks, g: Config, p: Pack, o: Options, k: Hook)
    requires MergeSpec(c, g, [p], o).Some?
    ensures MergeSpec(c, g, [p.(hook := Some(k))], o).Some? <==> k.mode == Enforce && !k.blockingChat && !k.hardCancel
  {
    AcceptsOne(c, g, p, o);
    AcceptsOne(c, g, p.(hook := Some(k)), o);
  }

  lemma RuleAccepted(c: PolicyChecks, r: Rule)
    ensures ValidRule(c, r) <==>
      && c.id(r.id) && r.effect in {Deny, RequireApproval, DisableMode} && 1 <= |r.summary| <= 160 && c.clean(r.summary)
      && forall i :: 0 <= i < |r.refs| ==> c.id(r.refs[i])
  {
    assert (forall i :: 0 <= i < |r.refs| ==> c.id(r.refs[i])) <==> forall ref :: ref in r.refs ==> c.id(ref);
  }

  /** A rule denies, asks for approval or disables a mode, but never allows; its summary has
      1 to 160 units and passes the scan, and its refs are ids. */
  lemma RuleDecides(c: PolicyChecks, g: Config, p: Pack, o: Options, r: Rule)
    requires MergeSpec(c, g, [p], o).Some?
    ensures MergeSpec(c, g, [p.(rules := [r])], o).Some? <==>
      && c.id(r.id) && r.effect in {Deny, RequireApproval, DisableMode} && 1 <= |r.summary| <= 160 && c.clean(r.summary)
      && forall i :: 0 <= i < |r.refs| ==> c.id(r.refs[i])
  {
    AcceptsOne(c, g, p, o);
    AcceptsOne(c, g, p.(rules := [r]), o);
    RuleAccepted(c, r);
    assert r in [r];
  }

  /** The invariant the fold carries: longer retention is allowed, or the release
      defaults of 14, 7 and 30 days hold. */
  lemma RetentionStaysValid(c: PolicyChecks, base: Retention, s: seq<Pack>)
    requires ValidRetention(base, true) && forall p :: p in s ==> ValidPack(c, p)
    ensures ValidRetention(RetentionAfter(base, s), true)
  {
    RetentionMeans(base, s);
    var r := RetentionAfter(base, s);
    if !r.allowLonger && !WithinDefaults(base) {
      var p :| p in s && LimitsLonger(p);
      assert SessionOf(p).Some? && DebugOf(p).Some? && ConformanceOf(p).Some?;
      assert r.session <= SessionOf(p).value && r.debug <= DebugOf(p).value && r.conformance <= ConformanceOf(p).value;
    }
  }

  /** Every limit is at most the configured one and at most that of each override, and the
      release defaults and the configured modes stay disabled. */
  lemma MergedNarrows(g: Config, packs: seq<Pack>, o: Options)
    ensures var e := Merged(g, packs, o);
      && Least(e.retention.session, g.retention.session, packs, SessionOf)
      && Least(e.retention.debug, g.retention.debug, packs, DebugOf)
      && Least(e.retention.conformance, g.retention.conformance, packs, ConformanceOf)
      && Least(e.usage.ttlMinutes, g.usage.ttlMinutes, packs, UsageTtlOf)
      && Least(e.health.ttlMinutes, g.health.ttlMinutes, packs, HealthTtlOf)
      && DEFAULT_DISABLED + Modes(g.disabled) <= e.disabled
  {
    InOrderMembers(packs);
    RetentionMeans(g.retention, InOrder(packs));
    UsageMeans(g.usage, InOrder(packs));
    HealthMeans(g.health, InOrder(packs));
  }

  /** A rule that disables a mode for a release, tool, provider family, agent profile or
      extension: permission classes and retention targets switch nothing off. */
  ghost predicate SomeRuleDisables(packs: seq<Pack>)
  {
    exists p, r :: && p in packs && r in p.rules && r.effect == DisableMode
                   && r.target in {ReleaseMode, Tool, ProviderFamily, AgentProfile, Extension}
  }

  /** Exactly which modes are disabled after the merge. */
  lemma DisabledIff(g: Config, packs: seq<Pack>, o: Options, m: Mode)
    ensures m in Merged(g, packs, o).disabled <==>
      || m in {RealDispatch, ManagedFallback, LaneLaunch, HardChatBlocking} || m in g.disabled
      || (m == WorkflowOptimization && SomeRuleDisables(packs))
  {
    var s := InOrder(packs);
    InOrderMembers(packs);
    if m in Merged(g, packs, o).disabled && m !in DEFAULT_DISABLED && m !in g.disabled {
      var r :| r in RulesAfter(s) && m in ModesOfRule(r);
      RulesMean(s, r);
    }
    if p, r :| && p in packs && r in p.rules && r.effect == DisableMode
               && r.target in {ReleaseMode, Tool, ProviderFamily, AgentProfile, Extension} {
      RulesMean(s, r);
      assert WorkflowOptimization in ModesOfRule(r);
    }
  }

  /** Retention limits, usage, health and hook policy and the disabled modes depend on the
      set of packs only: neither their order nor repeating them matters. */
  lemma MergedOrderFree(g: Config, a: seq<Pack>, b: seq<Pack>, o: Options)
    requires forall p :: p in a <==> p in b
    requires forall p :: p in a && p.hook.Some? ==> p.hook.value.mode.Enforce?
    ensures var x, y := Merged(g, a, o), Merged(g, b, o);
      && x.retention.session == y.retention.session && x.retention.debug == y.retention.debug
      && x.retention.conformance == y.retention.conformance && x.retention.allowLonger == y.retention.allowLonger
      && (x.retention.deletion.DeleteAfterExpiry? <==> y.retention.deletion.DeleteAfterExpiry?)
      && x.usage == y.usage && x.health == y.health && x.hook == y.hook && x.disabled == y.disabled
  {
    var s, t := InOrder(a), InOrder(b);
    InOrderMembers(a);
    InOrderMembers(b);
    RetentionOrderFree(g.retention, s, t);
    UsageMeans(g.usage, s);
    UsageMeans(g.usage, t);
    LeastUnique(UsageAfter(g.usage, s).ttlMinutes, UsageAfter(g.usage, t).ttlMinutes,
                g.usage.ttlMinutes, s, t, UsageTtlOf);
    HealthMeans(g.health, s);
    HealthMeans(g.health, t);
    LeastUnique(HealthAfter(g.health, s).ttlMinutes, HealthAfter(g.health, t).ttlMinutes,
                g.health.ttlMinutes, s, t, HealthTtlOf);
    var hook := Hook(g.chat, g.hookMode, false, false);
    HookMeans(hook, s);
    HookMeans(hook, t);
    DisabledOrderFree(DEFAULT_DISABLED + Modes(g.disabled), s, t);
  }

  lemma RetentionOrderFree(base: Retention, s: seq<Pack>, t: seq<Pack>)
    requires forall p :: p in s <==> p in t
    ensures var x, y := RetentionAfter(base, s), RetentionAfter(base, t);
      && x.session == y.session && x.debug == y.debug && x.conformance == y.conformance
      && x.allowLonger == y.allowLonger
      && (x.deletion.DeleteAfterExpiry? <==> y.deletion.DeleteAfterExpiry?)
  {
    RetentionMeans(base, s);
    RetentionMeans(base, t);
    var x, y := RetentionAfter(base, s), RetentionAfter(base, t);
    LeastUnique(x.session, y.session, base.session, s, t, SessionOf);
    LeastUnique(x.debug, y.debug, base.debug, s, t, DebugOf);
    LeastUnique(x.conformance, y.conformance, base.conformance, s, t, ConformanceOf);
  }

  lemma DisabledOrderFree(base: set<Mode>, s: seq<Pack>, t: seq<Pack>)
    requires forall p :: p in s <==> p in t
    ensures DisabledBy(base, RulesAfter(s)) == DisabledBy(base, RulesAfter(t))
  {
    forall r
      ensures r in RulesAfter(s) <==> r in RulesAfter(t)
    {
      RulesMean(s, r);
      RulesMean(t, r);
    }
  }

  /** The last override among the packs in order. */
  function LastOverride(s: seq<Pack>): Option<Retention>
  {
    if s == [] then None
    else if s[|s| - 1].retention.Some? then s[|s| - 1].retention
    else LastOverride(s[..|s| - 1])
  }

  /** `deletion_behavior`: delete after expiry if the configuration or any pack says so,
      otherwise what the last override in priority order says, otherwise the configured. */
  lemma DeletionMeans(g: Config, packs: seq<Pack>, o: Options)
    ensures Merged(g, packs, o).retention.deletion ==
      if g.retention.deletion.DeleteAfterExpiry? || AnyPack(DeletesAfterExpiry, packs) then DeleteAfterExpiry
      else if LastOverride(InOrder(packs)).Some? then LastOverride(InOrder(packs)).value.deletion
      else g.retention.deletion
  {
    InOrderMembers(packs);
    RetentionMeans(g.retention, InOrder(packs));
    if !RetentionAfter(g.retention, InOrder(packs)).deletion.DeleteAfterExpiry? {
      LastOverrideWins(g.retention, InOrder(packs));
    }
  }

  lemma {:induction false} LastOverrideWins(base: Retention, s: seq<Pack>)
    requires !RetentionAfter(base, s).deletion.DeleteAfterExpiry?
    ensures RetentionAfter(base, s).deletion ==
      if LastOverride(s).Some? then LastOverride(s).value.deletion else base.deletion
  {
    if s != [] && s[|s| - 1].retention.None? {
      LastOverrideWins(base, s[..|s| - 1]);
    }
  }

  // ---- When the deletion behaviour depends on the order ----------------------

  /** `p` overrides retention, and no overriding pack has a higher priority. */
  ghost predicate Top(packs: seq<Pack>, p: Pack)
  {
    p in packs && p.retention.Some? && forall q :: q in packs && q.retention.Some? ==> q.priority <= p.priority
  }

  /** The overriding packs of the highest priority carry one deletion behaviour. */
  ghost predicate TopAgree(packs: seq<Pack>)
  {
    forall p, q :: Top(packs, p) && Top(packs, q) ==> p.retention.value.deletion == q.retention.value.deletion
  }

  ghost predicate DeletionOrderFree(g: Config, packs: seq<Pack>, o: Options)
  {
    forall other :: multiset(other) == multiset(packs) ==>
      Merged(g, other, o).retention.deletion == Merged(g, packs, o).retention.deletion
  }

  lemma PriorityTotal()
    ensures TotalPreorder<Pack>(ByPriority)
  {
  }

  /** In sorted order the last override is a top one. */
  lemma {:induction false} LastOverrideIsTop(s: seq<Pack>) returns (p: Pack)
    requires Sorted(ByPriority, s) && LastOverride(s).Some?
    ensures Top(s, p) && LastOverride(s) == p.retention
  {
    var front, x := s[..|s| - 1], s[|s| - 1];
    assert s == front + [x];
    if x.retention.Some? {
      p := x;
      forall q | q in s
        ensures q.priority <= x.priority
      {
        var i :| 0 <= i < |s| && s[i] == q;
        assert i == |s| - 1 || ByPriority(s[i], s[|s| - 1]);
      }
    } else {
      p := LastOverrideIsTop(front);
    }
  }

  lemma {:induction false} SomeLastOverride(s: seq<Pack>, p: Pack)
    requires p in s && p.retention.Some?
    ensures LastOverride(s).Some?
  {
    var front, x := s[..|s| - 1], s[|s| - 1];
    assert s == front + [x];
    if x.retention.None? {
      SomeLastOverride(front, p);
    }
  }

  /** A pack inserted by priority overrides last if no override of higher priority is there. */
  lemma {:induction false} InsertedOverridesLast(s: seq<Pack>, p: Pack)
    requires p.retention.Some? && forall q :: q in s && q.retention.Some? ==> q.priority <= p.priority
    ensures LastOverride(Insert(ByPriority, s, p)) == p.retention
  {
    if s != [] && !ByPriority(s[|s| - 1], p) {
      assert s[|s| - 1] in s;
      InsertedOverridesLast(s[..|s| - 1], p);
    }
  }

  /** Any top override comes last in some arrangement: put it at the end of the list. */
  lemma TopCanBeLast(packs: seq<Pack>, p: Pack) returns (other: seq<Pack>)
    requires Top(packs, p)
    ensures multiset(other) == multiset(packs) && LastOverride(InOrder(other)) == p.retention
  {
    var i :| 0 <= i < |packs| && packs[i] == p;
    var rest := packs[..i] + packs[i + 1..];
    other := rest + [p];
    assert packs == packs[..i] + ([p] + packs[i + 1..]);
    assert multiset(other) == multiset(packs);
    assert other[..|rest|] == rest;
    InOrderMembers(rest);
    assert forall q :: q in rest ==> q in packs;
    InsertedOverridesLast(InOrder(rest), p);
  }

  /** The deletion behaviour is the same for every order of the packs exactly when the
      configuration or some pack says delete after expiry, or the overriding packs of the
      highest priority agree. */
  lemma DeletionOrderFreeIff(g: Config, packs: seq<Pack>, o: Options)
    ensures DeletionOrderFree(g, packs, o)
       <==> g.retention.deletion.DeleteAfterExpiry? || AnyPack(DeletesAfterExpiry, packs) || TopAgree(packs)
  {
    if !g.retention.deletion.DeleteAfterExpiry? && !AnyPack(DeletesAfterExpiry, packs) && !TopAgree(packs) {
      var p, q :| Top(packs, p) && Top(packs, q) && p.retention.value.deletion != q.retention.value.deletion;
      var last := TopCanBeLast(packs, p);
      var first := TopCanBeLast(packs, q);
      PermutationMembers(packs, last);
      PermutationMembers(packs, first);
      DeletionMeans(g, last, o);
      DeletionMeans(g, first, o);
      assert Merged(g, last, o).retention.deletion != Merged(g, first, o).retention.deletion;
    } else {
      forall other | multiset(other) == multiset(packs)
        ensures Merged(g, other, o).retention.deletion == Merged(g, packs, o).retention.deletion
      {
        DeletionAgrees(g, packs, other, o);
      }
    }
  }

  lemma DeletionAgrees(g: Config, packs: seq<Pack>, other: seq<Pack>, o: Options)
    requires multiset(other) == multiset(packs)
    requires g.retention.deletion.DeleteAfterExpiry? || AnyPack(DeletesAfterExpiry, packs) || TopAgree(packs)
    ensures Merged(g, other, o).retention.deletion == Merged(g, packs, o).retention.deletion
  {
    PermutationMembers(packs, other);
    DeletionMeans(g, packs, o);
    DeletionMeans(g, other, o);
    if !g.retention.deletion.DeleteAfterExpiry? && !AnyPack(DeletesAfterExpiry, packs) {
      LastOverrideInOrder(packs);
      LastOverrideInOrder(other);
      if LastOverride(InOrder(packs)).Some? {
        var p :| Top(packs, p) && LastOverride(InOrder(packs)) == p.retention;
        var q :| Top(other, q) && LastOverride(InOrder(other)) == q.retention;
        assert Top(packs, q);
      }
    }
  }

  /** Some pack overrides exactly when there is a last override, and that is a top one. */
  lemma LastOverrideInOrder(packs: seq<Pack>)
    ensures LastOverride(InOrder(packs)).Some? <==> exists p :: p in packs && p.retention.Some?
    ensures LastOverride(InOrder(packs)).Some? ==>
              exists p :: Top(packs, p) && LastOverride(InOrder(packs)) == p.retention
  {
    InOrderMembers(packs);
    PriorityTotal();
    SortSorted(ByPriority, packs);
    if LastOverride(InOrder(packs)).Some? {
      var p := LastOverrideIsTop(InOrder(packs));
      assert Top(packs, p);
    } else if p :| p in packs && p.retention.Some? {
      SomeLastOverride(InOrder(packs), p);
    }
  }

  /** The policy without its two lists that name packs one by one. */
  ghost function Core(e: Effective): Effective
  {
    e.(packHashes := [], rules := [])
  }

  /** So much for the whole policy, rules and hashes apart: it is the same for every order
      of the packs under exactly that condition. */
  lemma MergedOrderFreeIff(g: Config, packs: seq<Pack>, o: Options)
    requires forall p :: p in packs && p.hook.Some? ==> p.hook.value.mode.Enforce?
    ensures (forall other :: multiset(other) == multiset(packs) ==>
               Core(Merged(g, other, o)) == Core(Merged(g, packs, o)))
       <==> g.retention.deletion.DeleteAfterExpiry? || AnyPack(DeletesAfterExpiry, packs) || TopAgree(packs)
  {
    DeletionOrderFreeIff(g, packs, o);
    forall other | multiset(other) == multiset(packs)
      ensures Core(Merged(g, other, o)) == Core(Merged(g, packs, o))
         <==> Merged(g, other, o).retention.deletion == Merged(g, packs, o).retention.deletion
    {
      PermutationMembers(packs, other);
      MergedOrderFree(g, packs, other, o);
    }
  }

  /** With distinct priorities the whole policy, rules and deletion behaviour included, is
      the same for every arrangement of the packs, up to the order of their hashes. */
  lemma DistinctPrioritiesOrderFree(g: Config, a: seq<Pack>, b: seq<Pack>, o: Options)
    requires multiset(a) == multiset(b)
    requires forall p, q :: p in a && q in a && p.priority == q.priority ==> p == q
    ensures Merged(g, a, o).(packHashes := []) == Merged(g, b, o).(packHashes := [])
  {
    forall p, q | p in a && q in a && ByPriority(p, q) && ByPriority(q, p)
      ensures p == q
    {
      assert p.priority == q.priority;
    }
    SortAgrees(ByPriority, a, b);
  }

  /** The later of two packs of one priority decides, where neither says delete. */
  lemma LaterDecides(g: Config, p: Pack, q: Pack, o: Options)
    requires p.priority == q.priority && p.retention.Some? && q.retention.Some?
    requires !g.retention.deletion.DeleteAfterExpiry? && !p.retention.value.deletion.DeleteAfterExpiry?
    requires !q.retention.value.deletion.DeleteAfterExpiry?
    ensures Merged(g, [p, q], o).retention.deletion == q.retention.value.deletion
  {
    SortIdentity(ByPriority, [p, q]);
    assert [p, q][..1] == [p] && [p][..0] == [];
    assert RetentionAfter(g.retention, [p]).deletion == p.retention.value.deletion;
  }

  /** Two packs of equal priority that the merge accepts in either order, with different
      results: for every valid configuration that does not itself say delete. */
  lemma DeletionDependsOnOrder(c: PolicyChecks, g: Config, o: Options) returns (p: Pack, q: Pack)
    requires ValidConfig(c, g) && !g.retention.deletion.DeleteAfterExpiry?
    ensures p.priority == q.priority
    ensures MergeSpec(c, g, [p, q], o).Some? && MergeSpec(c, g, [q, p], o).Some?
    ensures MergeSpec(c, g, [p, q], o).value.retention.deletion != MergeSpec(c, g, [q, p], o).value.retention.deletion
  {
    var r := Retention(1.0, 1.0, 1.0, false, KeepUntilPolicyExpiry);
    p := Pack(g.hash, 0.0, [], Some(r), None, None, None);
    q := p.(retention := Some(r.(deletion := ManualCleanupOnly)));
    LaterDecides(g, p, q, o);
    LaterDecides(g, q, p, o);
  }
}
