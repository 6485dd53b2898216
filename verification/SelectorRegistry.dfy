/** The table the selector reads, the check of an entry's harness and model against its
    family, and what follows for every request. */
module SelectorRegistry {
  import opened Collections
  import opened Texts
  import opened Selector

  // ---- Compatibility ---------------------------------------------------------

  function HarnessFamily(harness: Text): Option<Family>
  {
    if harness == Ascii("claude-native") || harness == Ascii("claude-sdk") then Some(Claude)
    else if harness == Ascii("codex") then Some(OpenAi)
    else if harness == Ascii("antigravity-native") then Some(Gemini)
    else None
  }

  function Prefixes(family: Family): seq<Text>
  {
    match family
    case Claude => [Ascii("anthropic/"), Ascii("claude/"), Ascii("claude-")]
    case OpenAi => [Ascii("openai/")]
    case Gemini => [Ascii("google/"), Ascii("gemini/"), Ascii("gemini-")]
  }

  predicate StartsWith(t: Text, prefix: Text)
  {
    |prefix| <= |t| && t[..|prefix|] == prefix
  }

  /** The harness belongs to the family, and the model, if named, carries one of its prefixes. */
  predicate Compatible(e: Entry)
  {
    && HarnessFamily(e.harness) == Some(e.family)
    && (e.model.None? || exists i :: 0 <= i < |Prefixes(e.family)| && StartsWith(e.model.value, Prefixes(e.family)[i]))
  }

  // ---- The table -------------------------------------------------------------

  datatype Role =
    | PolicySecurity | Architecture | Implementation | Verification | Research | General | GeminiExperimental

  /** A line of the table; the kind of line fixes harness, family and model prefix. */
  datatype Row =
    | Native(name: Text, tier: Option<Text>, confidence: Confidence)
    | Codex(name: Text, tier: Option<Text>, confidence: Confidence)
    | CodexDefault(confidence: Confidence)
    | Google(name: Text, tier: Option<Text>, confidence: Confidence)
    | GeminiBare(name: Text, tier: Option<Text>, confidence: Confidence)

  function EntryOf(agent: Text, row: Row): Entry
  {
    match row
    case Native(name, tier, confidence) =>
      Entry(agent, Ascii("claude-native"), Some(Ascii("claude-") + name), tier, Claude, confidence)
    case Codex(name, tier, confidence) =>
      Entry(agent, Ascii("codex"), Some(Ascii("openai/") + name), tier, OpenAi, confidence)
    case CodexDefault(confidence) => Entry(agent, Ascii("codex"), None, None, OpenAi, confidence)
    case Google(name, tier, confidence) =>
      Entry(agent, Ascii("antigravity-native"), Some(Ascii("google/") + name), tier, Gemini, confidence)
    case GeminiBare(name, tier, confidence) =>
      Entry(agent, Ascii("antigravity-native"), Some(Ascii("gemini-") + name), tier, Gemini, confidence)
  }

  const OPUS_4_8 := Ascii("opus-4-8")
  const SONNET_5 := Ascii("sonnet-5")
  const SONNET_4_6 := Ascii("sonnet-4-6")
  const HAIKU_4_5 := Ascii("haiku-4-5")
  const FABLE_5 := Ascii("fable-5")
  const GPT_5_5 := Ascii("gpt-5.5")
  const GPT_5_6 := Ascii("gpt-5.6")
  const GPT_5_6_TERRA := Ascii("gpt-5.6-terra")
  const GPT_5_6_LUNA := Ascii("gpt-5.6-luna")
  const GPT_5_4 := Ascii("gpt-5.4")
  const GPT_5_4_MINI_FAST := Ascii("gpt-5.4-mini-fast")
  const GPT_5_3_CODEX_SPARK := Ascii("gpt-5.3-codex-spark")
  const GPT_5_4_MINI := Ascii("gpt-5.4-mini")
  const GEMINI_3_1_FLASH_LITE := Ascii("gemini-3.1-flash-lite")
  const GEMINI_3_FLASH_PREVIEW := Ascii("gemini-3-flash-preview")
  const FLASH_3_5 := Ascii("3.5-flash")
  const GEMINI_3_1_PRO_PREVIEW := Ascii("gemini-3.1-pro-preview")

  const TIER_SONNET := Some(Ascii("sonnet"))
  const TIER_FRONTIER := Some(Ascii("frontier"))
  const TIER_NORMAL := Some(Ascii("normal"))
  const TIER_FAST := Some(Ascii("fast"))
  const TIER_SPARK := Some(Ascii("spark"))
  const TIER_MINI := Some(Ascii("mini"))
  const TIER_FLASH_LITE := Some(Ascii("flash-lite"))
  const TIER_FLASH := Some(Ascii("flash"))
  const TIER_PRO := Some(Ascii("pro"))

  function Rows(role: Role): seq<Row>
  {
    match role
    case PolicySecurity =>
      [ Native(OPUS_4_8, None, High),
        Native(SONNET_5, TIER_SONNET, Medium),
        Native(SONNET_4_6, None, Medium),
        Native(HAIKU_4_5, None, Medium),
        Native(FABLE_5, None, Medium),
        CodexDefault(Medium),
        Codex(GPT_5_5, TIER_FRONTIER, Medium),
        Codex(GPT_5_6, TIER_FRONTIER, High),
        Codex(GPT_5_6_TERRA, TIER_NORMAL, High),
        Codex(GPT_5_6_LUNA, TIER_FAST, Medium) ]
    case Architecture =>
      [ CodexDefault(High),
        Codex(GPT_5_5, TIER_FRONTIER, High),
        Codex(GPT_5_4, TIER_NORMAL, High),
        Codex(GPT_5_6, TIER_FRONTIER, High),
        Codex(GPT_5_6_TERRA, TIER_NORMAL, High),
        Codex(GPT_5_6_LUNA, TIER_FAST, Medium),
        Native(SONNET_5, TIER_SONNET, Medium),
        Native(SONNET_4_6, None, Medium),
        Native(OPUS_4_8, None, Medium),
        Native(HAIKU_4_5, None, Medium),
        Native(FABLE_5, None, Medium) ]
    case Implementation =>
      [ CodexDefault(High),
        Codex(GPT_5_4_MINI_FAST, TIER_FAST, High),
        Codex(GPT_5_3_CODEX_SPARK, TIER_SPARK, Medium),
        Codex(GPT_5_6, TIER_FRONTIER, High),
        Codex(GPT_5_6_TERRA, TIER_NORMAL, High),
        Codex(GPT_5_6_LUNA, TIER_FAST, Medium),
        Native(SONNET_5, TIER_SONNET, Medium),
        Native(SONNET_4_6, None, Medium),
        Native(OPUS_4_8, None, Medium),
        Native(HAIKU_4_5, None, Medium),
        Native(FABLE_5, None, Medium) ]
    case Verification =>
      [ CodexDefault(High),
        Codex(GPT_5_4_MINI, TIER_MINI, High),
        Codex(GPT_5_4_MINI_FAST, TIER_FAST, Medium),
        Codex(GPT_5_6, TIER_FRONTIER, High),
        Codex(GPT_5_6_TERRA, TIER_NORMAL, High),
        Codex(GPT_5_6_LUNA, TIER_FAST, Medium),
        Native(HAIKU_4_5, None, Medium),
        Native(SONNET_5, TIER_SONNET, Medium),
        Native(SONNET_4_6, None, Medium),
        Native(OPUS_4_8, None, Medium),
        Native(FABLE_5, None, Medium),
        Google(GEMINI_3_1_FLASH_LITE, TIER_FLASH_LITE, Medium),
        Google(GEMINI_3_FLASH_PREVIEW, TIER_FLASH, Medium),
        GeminiBare(FLASH_3_5, TIER_FLASH, High),
        Google(GEMINI_3_1_PRO_PREVIEW, TIER_PRO, Medium) ]
    case Research =>
      [ Native(SONNET_5, TIER_SONNET, Medium),
        Native(SONNET_4_6, None, Medium),
        Native(OPUS_4_8, None, Medium),
        Native(HAIKU_4_5, None, Medium),
        Native(FABLE_5, None, Medium),
        CodexDefault(Medium),
        Codex(GPT_5_5, TIER_FRONTIER, Medium),
        Codex(GPT_5_6, TIER_FRONTIER, High),
        Codex(GPT_5_6_TERRA, TIER_NORMAL, High),
        Codex(GPT_5_6_LUNA, TIER_FAST, Medium) ]
    case General =>
      [ CodexDefault(Medium),
        Codex(GPT_5_4_MINI_FAST, TIER_FAST, Medium),
        Codex(GPT_5_3_CODEX_SPARK, TIER_SPARK, Medium),
        Codex(GPT_5_6, TIER_FRONTIER, High),
        Codex(GPT_5_6_TERRA, TIER_NORMAL, High),
        Codex(GPT_5_6_LUNA, TIER_FAST, Medium),
        Native(SONNET_5, TIER_SONNET, Medium),
        Native(SONNET_4_6, None, Medium),
        Native(OPUS_4_8, None, Medium),
        Native(HAIKU_4_5, None, Medium),
        Native(FABLE_5, None, Medium) ]
    case GeminiExperimental =>
      [ Google(GEMINI_3_1_FLASH_LITE, TIER_FLASH_LITE, High),
        Google(GEMINI_3_FLASH_PREVIEW, TIER_FLASH, Medium),
        GeminiBare(FLASH_3_5, TIER_FLASH, High),
        Google(GEMINI_3_1_PRO_PREVIEW, TIER_PRO, Medium) ]
  }

  function Agent(role: Role): Text
  {
    match role
    case PolicySecurity => Ascii("policy-security-agent")
    case Architecture => Ascii("architecture-agent")
    case Implementation => Ascii("implementation-agent")
    case Verification => Ascii("verification-agent")
    case Research => Ascii("research-agent")
    case General => Ascii("general-agent")
    case GeminiExperimental => Ascii("gemini-agent")
  }

  /** The entries of one role, all of one agent. */
  function Registry(role: Role): seq<Entry>
  {
    var agent := Agent(role);
    Map(row => EntryOf(agent, row), Rows(role))
  }

  // ---- For every request -----------------------------------------------------

  lemma PrefixFits(e: Entry, i: nat, name: Text)
    requires HarnessFamily(e.harness) == Some(e.family) && i < |Prefixes(e.family)|
    requires e.model == Some(Prefixes(e.family)[i] + name)
    ensures Compatible(e)
  {
    assert StartsWith(e.model.value, Prefixes(e.family)[i]);
  }

  lemma EntryFits(agent: Text, row: Row)
    ensures Compatible(EntryOf(agent, row))
  {
    var e := EntryOf(agent, row);
    if !row.CodexDefault? {
      PrefixFits(e, if row.Native? || row.GeminiBare? then 2 else 0, row.name);
    }
  }

  /** Every entry of the table has a harness and a model of its family. */
  lemma RegistryCompatible(role: Role)
    ensures forall e :: e in Registry(role) ==> Compatible(e)
  {
    var agent, rows := Agent(role), Rows(role);
    forall i | 0 <= i < |rows|
      ensures Compatible(EntryOf(agent, rows[i]))
    {
      EntryFits(agent, rows[i]);
    }
  }

  lemma NoMismatch(c: Constraints, registry: seq<Entry>)
    requires forall e :: e in registry ==> Compatible(e)
    ensures SelectSpec(Compatible, c, registry) != Blocked(FamilyMismatch)
    ensures SelectSpec(Compatible, c, registry).Blocked? <==> forall e :: e in registry ==> !Admissible(c, e)
    ensures forall i: nat :: i < |registry| && Best(c, registry, i) ==>
      SelectSpec(Compatible, c, registry) == Selected(registry[i])
  {
    CompatibleRegistrySelects(Compatible, c, registry);
    SelectIsArgmin(Compatible, c, registry);
    assert forall i: nat :: i < |registry| ==> registry[i] in registry;
  }

  /** So no request is ever blocked by a mismatch: every role blocks exactly when nothing is
      admissible, and otherwise selects the admissible entry of least score. */
  lemma MismatchIsDead(c: Constraints, role: Role)
    ensures SelectSpec(Compatible, c, Registry(role)) != Blocked(FamilyMismatch)
    ensures SelectSpec(Compatible, c, Registry(role)).Blocked?
       <==> forall e :: e in Registry(role) ==> !Admissible(c, e)
    ensures forall i: nat :: i < |Registry(role)| && Best(c, Registry(role), i) ==>
      SelectSpec(Compatible, c, Registry(role)) == Selected(Registry(role)[i])
  {
    RegistryCompatible(role);
    NoMismatch(c, Registry(role));
  }

  /** And loosening a request never turns a selection into a block, whatever the role. */
  lemma LooseningIsSafe(a: Constraints, b: Constraints, role: Role)
    requires Looser(a, b) && SelectSpec(Compatible, a, Registry(role)).Selected?
    ensures SelectSpec(Compatible, b, Registry(role)).Selected?
  {
    RegistryCompatible(role);
    LooseningKeepsSelection(Compatible, a, b, Registry(role));
  }

  /** That rests on the table. With any incompatible entry in front of a compatible one of
      another agent, dropping the agent constraint blocks the request. */
  lemma LooseningCanExposeMismatch(good: Entry, bad: Entry, c: Constraints)
    requires Compatible(good) && !Compatible(bad) && good.agent != bad.agent && good.confidence == bad.confidence
    requires c == Constraints({good.family, bad.family}, Some({good.agent}), None, None, None, None, false, None)
    ensures Looser(c, c.(agents := None))
    ensures SelectSpec(Compatible, c, [bad, good]) == Selected(good)
    ensures SelectSpec(Compatible, c.(agents := None), [bad, good]) == Blocked(FamilyMismatch)
  {
    var d := c.(agents := None);
    assert [bad, good][1..] == [good];
    forall x: Constraints | x == c || x == d
      ensures Ordered(x, [bad, good]) == [bad, good]
    {
      assert [bad, good][..1] == [bad];
      assert [bad][..0] == [];
      assert Filter(ModelTest(x), [bad]) == [bad];
    }
    assert Meets(d, bad) && !Meets(c, bad) && Meets(c, good);
    assert FirstMeeting(c, [bad, good]) == FirstMeeting(c, [good]) == Some(good);
    assert FirstMeeting(d, [bad, good]) == Some(bad);
  }
}
