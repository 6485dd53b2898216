/** The production-enablement gate: which labels block, what state results, and how
    both behave as evidence is added. */
module ProductionGate {
  import opened Collections
  import opened Texts
  import opened Checks
  import opened DispatchLedger
  import opened SessionEvidence

  datatype Blocker =
    | ReloadFailed | BlockedRecords | UsageAuthorityMissing | RuntimeEchoMissing | TelemetryMissing
    | AuditMissing | ApprovalSourceMissing | IdempotencyMissing | AuditMismatched | ReservationMissing
    | HealthMissing | HealthNotFresh | HealthNotDispatchable
    | VerificationMissing | VerificationResultMissing | VerificationInvalid | VerificationFailed
    | CaptureResultMissing | CaptureInvalid | CaptureFailed
    | AuthPolicyMissing | ProviderPolicyMissing | PolicyResultMissing | PolicyInvalid | PolicyFailed
    | LaneConformanceMissing | ApprovalMissing | ApprovalDenied | ApprovalMismatched | RequiredRefsMissing

  /** Blockers outside what the plugin can settle by itself. */
  predicate PlatformDependent(b: Blocker)
  {
    b.RuntimeEchoMissing? || b.TelemetryMissing? || b.LaneConformanceMissing? || b.UsageAuthorityMissing?
  }

  /** A result record with the verdict of its own validator. */
  datatype Checked = Checked(valid: bool, passed: bool, refs: seq<Text>)

  datatype Decision = Decision(valid: bool, id: Text, approve: bool, requiredRefs: seq<Text>, missing: seq<Blocker>)

  datatype GateInput = GateInput(
    workflowId: Text, attemptId: Option<Text>, key: Option<Text>, auditRef: Option<Text>,
    verificationRef: Option<Text>, captureRef: Option<Text>,
    authPolicyRef: Option<Text>, providerPolicyRef: Option<Text>,
    verification: Option<Checked>, capture: Option<Checked>, policy: Option<Checked>,
    laneRefs: seq<Text>, allowIncomplete: bool, decision: Option<Decision>)

  datatype GateState = Blocked | Configured | Approved | DispatchCapable

  // ---- Evidence tests --------------------------------------------------------

  predicate IsAudit(e: ReloadEntry) { e.evidence.AuditRecord? }

  predicate IsSource(e: ReloadEntry) { e.evidence.ApprovalRecord? }

  predicate IsHealth(e: ReloadEntry) { e.evidence.HealthRecord? }

  predicate FreshHealth(e: ReloadEntry) { e.evidence.HealthRecord? && e.evidence.isFresh }

  predicate DispatchableHealth(e: ReloadEntry) { e.evidence.HealthRecord? && e.evidence.dispatchable }

  predicate GoodHealth(e: ReloadEntry)
  {
    && e.evidence.HealthRecord? && e.evidence.isFresh && e.evidence.dispatchable
    && e.evidence.healthy && e.evidence.noFailure
  }

  predicate GoodUsage(e: ReloadEntry) { e.evidence.UsageRecord? && e.evidence.isFresh && e.evidence.dispatchable }

  function MarkerTest(kind: MarkerKind): ReloadEntry -> bool
  {
    (e: ReloadEntry) => e.evidence.Marker? && e.evidence.kind == kind
  }

  predicate AuditMatches(q: GateInput, e: ReloadEntry)
  {
    && e.evidence.AuditRecord?
    && e.evidence.workflow == Some(q.workflowId) && e.evidence.preDispatchAuditRef == q.auditRef
    && (q.attemptId.Some? ==> e.evidence.attempt == q.attemptId)
    && (q.decision.Some? && e.evidence.approvalRef.Some? ==> e.evidence.approvalRef.value == q.decision.value.id)
  }

  function AuditTest(q: GateInput): ReloadEntry -> bool { e => AuditMatches(q, e) }

  predicate Holds(q: GateInput, entry: LedgerEntry)
  {
    && entry.state.Reserved?
    && (q.attemptId.Some? ==> entry.attemptId == q.attemptId.value)
    && (q.key.Some? ==> entry.key == q.key.value)
  }

  predicate HoldsReservation(q: GateInput, e: ReloadEntry)
  {
    && e.evidence.LedgerRecord?
    && exists i :: 0 <= i < |e.evidence.ledger.entries| && Holds(q, e.evidence.ledger.entries[i])
  }

  function ReservationTest(q: GateInput): ReloadEntry -> bool { e => HoldsReservation(q, e) }

  /** A reservation is only asked for when the input names an attempt or a key. */
  predicate ReservationAsked(q: GateInput)
  {
    q.attemptId.Some? || q.key.Some?
  }

  // ---- What each label means -------------------------------------------------

  datatype Findings = Findings(
    usageAuthority: bool, runtimeEcho: bool, telemetry: bool, audit: bool, source: bool, ledger: bool,
    auditMatches: bool, reserved: bool)

  ghost function FindingsOf(q: GateInput, s: seq<ReloadEntry>): Findings
  {
    Findings(Any(MarkerTest(UsageAuthority), s), Any(MarkerTest(RuntimeEcho), s),
             Any(MarkerTest(TelemetryCorrelation), s),
             Any(IsAudit, s), Any(IsSource, s), Any(IsLedger, s), Any(AuditTest(q), s),
             !ReservationAsked(q) || Any(ReservationTest(q), s))
  }

  /** The checks of the reloaded evidence and their labels. */
  function EvidenceChecks(q: GateInput, ok: bool, blocked: nat, f: Findings): seq<(bool, Blocker)>
  {
    [(!ok, ReloadFailed),
     (blocked > 0, BlockedRecords),
     (!f.usageAuthority, UsageAuthorityMissing),
     (!f.runtimeEcho, RuntimeEchoMissing),
     (!f.telemetry, TelemetryMissing),
     (!f.audit, AuditMissing),
     (!f.source, ApprovalSourceMissing),
     (!f.ledger, IdempotencyMissing),
     (q.auditRef.Some? && f.audit && !f.auditMatches, AuditMismatched),
     (f.ledger && !f.reserved, ReservationMissing)]
  }

  ghost predicate HealthBlocks(s: seq<ReloadEntry>, b: Blocker)
  {
    && !Any(GoodUsage, s)
    && match b
       case HealthMissing => !Any(IsHealth, s)
       case HealthNotFresh => Any(IsHealth, s) && !Any(GoodHealth, s) && !Any(FreshHealth, s)
       case HealthNotDispatchable =>
         Any(IsHealth, s) && !Any(GoodHealth, s) && (!Any(DispatchableHealth, s) || Any(FreshHealth, s))
       case _ => false
  }

  predicate ValidRef(c: FieldChecks, ref: Option<Text>)
  {
    ref.Some? && c.opaqueId(ref.value)
  }

  function RefChecks(c: FieldChecks, q: GateInput): seq<(bool, Blocker)>
  {
    [(!ValidRef(c, q.auditRef), AuditMissing),
     (!ValidRef(c, q.verificationRef), VerificationMissing),
     (!ValidRef(c, q.authPolicyRef), AuthPolicyMissing),
     (!ValidRef(c, q.captureRef), CaptureResultMissing),
     (!ValidRef(c, q.providerPolicyRef), ProviderPolicyMissing)]
  }

  predicate Bad(r: Option<Checked>) { r.Some? && !r.value.valid }

  predicate Failed(r: Option<Checked>) { r.Some? && r.value.valid && !r.value.passed }

  predicate Good(r: Option<Checked>) { r.Some? && r.value.valid }

  function ResultChecks(q: GateInput): seq<(bool, Blocker)>
  {
    [(Bad(q.verification), VerificationInvalid),
     (Failed(q.verification), VerificationFailed),
     (q.verificationRef.Some? && !Good(q.verification), VerificationResultMissing),
     (Bad(q.capture), CaptureInvalid),
     (Failed(q.capture), CaptureFailed),
     (q.captureRef.Some? && !Good(q.capture), CaptureResultMissing),
     (Bad(q.policy), PolicyInvalid),
     (Failed(q.policy), PolicyFailed),
     (q.authPolicyRef.Some? && q.providerPolicyRef.Some? && !Good(q.policy), PolicyResultMissing)]
  }

  ghost predicate LaneRefsValid(c: FieldChecks, refs: seq<Text>)
  {
    forall r :: r in refs ==> c.opaqueId(r)
  }

  ghost predicate LaneBlocks(c: FieldChecks, q: GateInput, b: Blocker)
  {
    && b.LaneConformanceMissing?
    && if q.laneRefs == [] then !q.allowIncomplete else !LaneRefsValid(c, q.laneRefs)
  }

  /** The reference under which an entry counts as evidence. */
  function RefOf(c: FieldChecks, e: ReloadEntry): Text
  {
    var ref := match e.evidence
      case ApprovalRecord(a) => Some(a.id)
      case AuditRecord(_, _, ref, _, _) => ref
      case LedgerRecord(l) => Some(l.snapshotRef)
      case UsageRecord(ref, _, _) => ref
      case HealthRecord(ref, _, _, _, _) => ref
      case RegateRecord(_, _, _) => None
      case Marker(_, ref) => ref;
    if ValidRef(c, ref) then ref.value else e.id
  }

  function Given(ref: Option<Text>): seq<Text>
  {
    if ref.Some? then [ref.value] else []
  }

  function RefsOf(used: bool, r: Option<Checked>): seq<Text>
  {
    if used && Good(r) then r.value.refs else []
  }

  /** The references named by the input itself. */
  function InputRefs(q: GateInput): seq<Text>
  {
    Given(q.auditRef) + Given(q.verificationRef) + RefsOf(q.verificationRef.Some?, q.verification)
    + Given(q.captureRef) + RefsOf(q.captureRef.Some?, q.capture) + Given(q.authPolicyRef) + Given(q.providerPolicyRef)
    + RefsOf(q.authPolicyRef.Some? && q.providerPolicyRef.Some?, q.policy) + q.laneRefs
  }

  function EvidenceRefs(c: FieldChecks, q: GateInput, s: seq<ReloadEntry>): seq<Text>
  {
    Unique(Map(e => RefOf(c, e), s) + InputRefs(q))
  }

  ghost predicate RefsPresent(required: seq<Text>, refs: seq<Text>)
  {
    forall r :: r in required ==> r in refs
  }

  ghost predicate DecisionBlocks(c: FieldChecks, q: GateInput, s: seq<ReloadEntry>, b: Blocker)
  {
    if q.decision.None? then b.ApprovalMissing?
    else
      var d := q.decision.value;
      if !d.valid then b.ApprovalMismatched?
      else
        || (b.ApprovalDenied? && !d.approve)
        || b in d.missing
        || (b.RequiredRefsMissing? && !RefsPresent(d.requiredRefs, EvidenceRefs(c, q, s)))
  }

  /** When a label is among the blockers. */
  ghost predicate Blocks(c: FieldChecks, q: GateInput, reload: Reload, b: Blocker)
  {
    || Raised(EvidenceChecks(q, reload.ok, reload.blocked, FindingsOf(q, reload.entries)), b)
    || HealthBlocks(reload.entries, b)
    || Raised(RefChecks(c, q), b) || Raised(ResultChecks(q), b) || LaneBlocks(c, q, b)
    || DecisionBlocks(c, q, reload.entries, b)
  }

  predicate ValidIfGiven(c: FieldChecks, ref: Option<Text>)
  {
    ref.Some? ==> c.opaqueId(ref.value)
  }

  /** When no error message is recorded. */
  ghost predicate ErrorFree(c: FieldChecks, q: GateInput, reload: Reload)
  {
    && c.opaqueId(q.workflowId) && (reload.ok || reload.errors == [])
    && ValidIfGiven(c, q.attemptId) && ValidIfGiven(c, q.key)
    && ValidRef(c, q.auditRef) && ValidRef(c, q.verificationRef) && ValidRef(c, q.captureRef)
    && ValidRef(c, q.authPolicyRef) && ValidRef(c, q.providerPolicyRef)
    && Good(q.verification) && Good(q.capture) && Good(q.policy)
    && LaneRefsValid(c, q.laneRefs)
    && (q.decision.Some? ==> q.decision.value.valid)
  }

  ghost predicate HumanApproved(q: GateInput)
  {
    q.decision.Some? && q.decision.value.valid && q.decision.value.approve
  }

  /** The plugin-satisfiable gate. */
  ghost predicate Passed(c: FieldChecks, q: GateInput, reload: Reload)
  {
    && ErrorFree(c, q, reload) && HumanApproved(q)
    && forall b :: Blocks(c, q, reload, b) ==> PlatformDependent(b)
  }

  ghost function StateOf(c: FieldChecks, q: GateInput, reload: Reload): GateState
  {
    if !ErrorFree(c, q, reload) then Blocked
    else if Passed(c, q, reload) then DispatchCapable
    else if forall b :: Blocks(c, q, reload, b) <==> b.ApprovalMissing? then Configured
    else if && q.decision.Some? && q.decision.value.approve
            && forall b :: Blocks(c, q, reload, b) ==> b.LaneConformanceMissing?
      then Approved
    else Blocked
  }

  // ---- The evaluator ---------------------------------------------------------

  method Find(q: GateInput, s: seq<ReloadEntry>) returns (f: Findings)
    ensures f == FindingsOf(q, s)
  {
    var usageAuthority := Exists(MarkerTest(UsageAuthority), s);
    var runtimeEcho := Exists(MarkerTest(RuntimeEcho), s);
    var telemetry := Exists(MarkerTest(TelemetryCorrelation), s);
    var audit := Exists(IsAudit, s);
    var source := Exists(IsSource, s);
    var ledger := Exists(IsLedger, s);
    var auditMatches := Exists(AuditTest(q), s);
    var reserved := true;
    if ReservationAsked(q) {
      reserved := Exists(ReservationTest(q), s);
    }
    f := Findings(usageAuthority, runtimeEcho, telemetry, audit, source, ledger, auditMatches, reserved);
  }

  method HealthBlockers(s: seq<ReloadEntry>) returns (labels: seq<Blocker>)
    ensures forall b :: b in labels <==> HealthBlocks(s, b)
  {
    labels := [];
    var usage := Exists(GoodUsage, s);
    if usage {
      return;
    }
    var health := Exists(IsHealth, s);
    if !health {
      return [HealthMissing];
    }
    var good := Exists(GoodHealth, s);
    if good {
      return;
    }
    var anyFresh := Exists(FreshHealth, s);
    if !anyFresh {
      labels := labels + [HealthNotFresh];
    }
    var anyDispatchable := Exists(DispatchableHealth, s);
    if !anyDispatchable {
      labels := labels + [HealthNotDispatchable];
    }
    if |labels| == 0 {
      labels := [HealthNotDispatchable];
    }
  }

  method LaneBlockers(c: FieldChecks, q: GateInput) returns (labels: seq<Blocker>, errorFree: bool)
    ensures forall b :: b in labels <==> LaneBlocks(c, q, b)
    ensures errorFree <==> LaneRefsValid(c, q.laneRefs)
  {
    labels, errorFree := [], true;
    if |q.laneRefs| == 0 {
      if !q.allowIncomplete {
        labels := [LaneConformanceMissing];
      }
    } else {
      for i := 0 to |q.laneRefs|
        invariant errorFree <==> forall j :: 0 <= j < i ==> c.opaqueId(q.laneRefs[j])
        invariant errorFree <==> labels == []
        invariant forall b :: b in labels ==> b.LaneConformanceMissing?
      {
        if !c.opaqueId(q.laneRefs[i]) {
          labels := labels + [LaneConformanceMissing];
          errorFree := false;
        }
      }
      assert labels != [] ==> labels[0] in labels;
    }
  }

  method DecisionBlockers(c: FieldChecks, q: GateInput, s: seq<ReloadEntry>) returns (labels: seq<Blocker>)
    ensures forall b :: b in labels <==> DecisionBlocks(c, q, s, b)
  {
    if q.decision.None? {
      return [ApprovalMissing];
    }
    var d := q.decision.value;
    if !d.valid {
      return [ApprovalMismatched];
    }
    var refs := EvidenceRefs(c, q, s);
    var missing := false;
    for i := 0 to |d.requiredRefs|
      invariant missing <==> exists j :: 0 <= j < i && d.requiredRefs[j] !in refs
    {
      if d.requiredRefs[i] !in refs {
        missing := true;
      }
    }
    assert missing <==> !RefsPresent(d.requiredRefs, refs) by {
      if j :| 0 <= j < |d.requiredRefs| && d.requiredRefs[j] !in refs {
        assert d.requiredRefs[j] in d.requiredRefs;
      }
    }
    labels := (if d.approve then [] else [ApprovalDenied]) + d.missing
              + (if missing then [RequiredRefsMissing] else []);
  }

  method Evaluate(c: FieldChecks, q: GateInput, reload: Reload)
    returns (state: GateState, blockers: seq<Blocker>, ready: bool)
    ensures NoDup(blockers) && forall b :: b in blockers <==> Blocks(c, q, reload, b)
    ensures state == StateOf(c, q, reload)
    ensures ready <==> Passed(c, q, reload)
  {
    var f := Find(q, reload.entries);
    var fromEvidence := Raise(EvidenceChecks(q, reload.ok, reload.blocked, f));
    var fromHealth := HealthBlockers(reload.entries);
    var fromRefs := Raise(RefChecks(c, q));
    var fromResults := Raise(ResultChecks(q));
    var fromLanes, laneErrorFree := LaneBlockers(c, q);
    var fromDecision := DecisionBlockers(c, q, reload.entries);
    var labels := fromEvidence + fromHealth + fromRefs + fromResults + fromLanes + fromDecision;
    var errorFree := && c.opaqueId(q.workflowId) && (reload.ok || |reload.errors| == 0)
                     && ValidIfGiven(c, q.attemptId) && ValidIfGiven(c, q.key)
                     && ValidRef(c, q.auditRef) && ValidRef(c, q.verificationRef) && ValidRef(c, q.captureRef)
                     && ValidRef(c, q.authPolicyRef) && ValidRef(c, q.providerPolicyRef)
                     && Good(q.verification) && Good(q.capture) && Good(q.policy)
                     && laneErrorFree && (q.decision.Some? ==> q.decision.value.valid);
    UniqueMembers(labels);
    blockers := Unique(labels);
    state, ready := Decide(c, q, reload, errorFree, blockers);
  }

  method Decide(c: FieldChecks, q: GateInput, reload: Reload, errorFree: bool, blockers: seq<Blocker>)
    returns (state: GateState, ready: bool)
    requires NoDup(blockers) && forall b :: b in blockers <==> Blocks(c, q, reload, b)
    requires errorFree <==> ErrorFree(c, q, reload)
    ensures state == StateOf(c, q, reload)
    ensures ready <==> Passed(c, q, reload)
  {
    var fatal := false;
    var onlyLanes := true;
    for i := 0 to |blockers|
      invariant fatal <==> exists j :: 0 <= j < i && !PlatformDependent(blockers[j])
      invariant onlyLanes <==> forall j :: 0 <= j < i ==> blockers[j].LaneConformanceMissing?
    {
      fatal := fatal || !PlatformDependent(blockers[i]);
      onlyLanes := onlyLanes && blockers[i].LaneConformanceMissing?;
    }
    ready := errorFree && !fatal && q.decision.Some? && q.decision.value.valid && q.decision.value.approve;
    OnlyOne(blockers, ApprovalMissing);
    assert fatal <==> exists b :: b in blockers && !PlatformDependent(b);
    assert onlyLanes <==> forall b :: b in blockers ==> b.LaneConformanceMissing?;
    state := if !errorFree then Blocked
             else if ready then DispatchCapable
             else if blockers == [ApprovalMissing] then Configured
             else if q.decision.Some? && q.decision.value.approve && onlyLanes then Approved
             else Blocked;
  }

  lemma OnlyOne<T>(s: seq<T>, x: T)
    requires NoDup(s)
    ensures s == [x] <==> forall y :: y in s <==> y == x
  {
    if forall y :: y in s <==> y == x {
      assert x in s;
      assert |s| > 1 ==> s[0] in s && s[1] in s;
      assert s[0] in s;
    }
  }

  // ---- Properties ------------------------------------------------------------

  /** The `approved` state is dead: no input and no evidence reaches it. */
  lemma NeverApproved(c: FieldChecks, q: GateInput, reload: Reload)
    ensures !StateOf(c, q, reload).Approved?
  {
    if ErrorFree(c, q, reload) && q.decision.Some? && q.decision.value.approve {
      assert HumanApproved(q);
    }
  }

  /** The gate without labels: what exactly must be there. Usage authority, runtime
      echo, telemetry and lane conformance refs are not asked for. */
  ghost predicate Requirements(c: FieldChecks, q: GateInput, reload: Reload)
  {
    var s := reload.entries;
    && ErrorFree(c, q, reload) && HumanApproved(q) && reload.ok && reload.blocked == 0
    && Any(IsSource, s) && Any(IsLedger, s) && Any(AuditTest(q), s)
    && (ReservationAsked(q) ==> Any(ReservationTest(q), s))
    && (Any(GoodUsage, s) || Any(GoodHealth, s))
    && q.verification.value.passed && q.capture.value.passed && q.policy.value.passed
    && RefsPresent(q.decision.value.requiredRefs, EvidenceRefs(c, q, s))
    && forall b :: b in q.decision.value.missing ==> PlatformDependent(b)
  }

  lemma AuditTestIsAudit(q: GateInput, s: seq<ReloadEntry>)
    requires Any(AuditTest(q), s)
    ensures Any(IsAudit, s)
  {
  }

  lemma EvidenceSettled(q: GateInput, ok: bool, blocked: nat, f: Findings)
    ensures (forall b :: Raised(EvidenceChecks(q, ok, blocked, f), b) ==> PlatformDependent(b))
       <==> ok && blocked == 0 && f.audit && f.source && f.ledger && (q.auditRef.Some? ==> f.auditMatches) && f.reserved
  {
    var checks := EvidenceChecks(q, ok, blocked, f);
    StrikesMeans(checks, PlatformDependent);
    if Strikes(checks, PlatformDependent) {
      assert !checks[0].0 && !checks[1].0 && !checks[5].0 && !checks[6].0;
      assert !checks[7].0 && !checks[8].0 && !checks[9].0;
    }
  }

  lemma HealthSettled(s: seq<ReloadEntry>)
    ensures (forall b :: HealthBlocks(s, b) ==> PlatformDependent(b)) <==> Any(GoodUsage, s) || Any(GoodHealth, s)
  {
    if forall b :: HealthBlocks(s, b) ==> PlatformDependent(b) {
      assert !HealthBlocks(s, HealthMissing) && !HealthBlocks(s, HealthNotFresh)
          && !HealthBlocks(s, HealthNotDispatchable);
    } else if Any(GoodHealth, s) {
      GoodHealthIsHealth(s);
    }
  }

  lemma ResultsSettled(q: GateInput)
    requires Good(q.verification) && Good(q.capture) && Good(q.policy)
    ensures (forall b :: Raised(ResultChecks(q), b) ==> PlatformDependent(b))
       <==> q.verification.value.passed && q.capture.value.passed && q.policy.value.passed
  {
    var checks := ResultChecks(q);
    StrikesMeans(checks, PlatformDependent);
    if Strikes(checks, PlatformDependent) {
      assert !checks[1].0 && !checks[4].0 && !checks[7].0;
    }
  }

  /** The reference checks add no label to an error-free evaluation. */
  lemma RefsSettled(c: FieldChecks, q: GateInput)
    requires ValidRef(c, q.auditRef) && ValidRef(c, q.verificationRef) && ValidRef(c, q.captureRef)
    requires ValidRef(c, q.authPolicyRef) && ValidRef(c, q.providerPolicyRef)
    ensures forall b :: !Raised(RefChecks(c, q), b)
  {
    assert Clear(RefChecks(c, q));
    ClearMeans(RefChecks(c, q));
  }

  lemma DecisionSettled(c: FieldChecks, q: GateInput, s: seq<ReloadEntry>)
    requires HumanApproved(q) && forall b :: DecisionBlocks(c, q, s, b) ==> PlatformDependent(b)
    ensures RefsPresent(q.decision.value.requiredRefs, EvidenceRefs(c, q, s))
    ensures forall b :: b in q.decision.value.missing ==> PlatformDependent(b)
  {
    assert !DecisionBlocks(c, q, s, RequiredRefsMissing);
    forall b | b in q.decision.value.missing
      ensures PlatformDependent(b)
    {
      assert DecisionBlocks(c, q, s, b);
    }
  }

  lemma PassedNeeds(c: FieldChecks, q: GateInput, reload: Reload)
    requires Passed(c, q, reload)
    ensures Requirements(c, q, reload)
  {
    var s := reload.entries;
    EvidenceSettled(q, reload.ok, reload.blocked, FindingsOf(q, s));
    HealthSettled(s);
    ResultsSettled(q);
    DecisionSettled(c, q, s);
  }

  lemma RequirementsSuffice(c: FieldChecks, q: GateInput, reload: Reload)
    requires Requirements(c, q, reload)
    ensures Passed(c, q, reload)
  {
    var s := reload.entries;
    AuditTestIsAudit(q, s);
    EvidenceSettled(q, reload.ok, reload.blocked, FindingsOf(q, s));
    HealthSettled(s);
    ResultsSettled(q);
    RefsSettled(c, q);
    forall b | Blocks(c, q, reload, b)
      ensures PlatformDependent(b)
    {
      assert DecisionBlocks(c, q, s, b) ==> PlatformDependent(b);
    }
  }

  lemma GoodHealthIsHealth(s: seq<ReloadEntry>)
    requires Any(GoodHealth, s)
    ensures Any(IsHealth, s)
  {
  }

  /** `dispatch_capable` is reached exactly when the requirements are met. */
  lemma DispatchCapableMeans(c: FieldChecks, q: GateInput, reload: Reload)
    ensures StateOf(c, q, reload).DispatchCapable? <==> Requirements(c, q, reload)
  {
    if Passed(c, q, reload) {
      PassedNeeds(c, q, reload);
    }
    if Requirements(c, q, reload) {
      RequirementsSuffice(c, q, reload);
    }
  }

  function HealthEntry(id: Text, ref: Option<Text>, isFresh: bool, dispatchable: bool, healthy: bool, noFailure: bool)
    : ReloadEntry
  {
    ReloadEntry(id, HealthRecord(ref, isFresh, dispatchable, healthy, noFailure))
  }

  function UsageEntry(id: Text, ref: Option<Text>, isFresh: bool, dispatchable: bool): ReloadEntry
  {
    ReloadEntry(id, UsageRecord(ref, isFresh, dispatchable))
  }

  function With(reload: Reload, e: ReloadEntry): Reload
  {
    reload.(entries := reload.entries + [e])
  }

  lemma AnyWith(p: ReloadEntry -> bool, s: seq<ReloadEntry>, e: ReloadEntry)
    ensures Any(p, s + [e]) <==> Any(p, s) || p(e)
  {
    assert (s + [e])[|s|] == e;
    if i :| 0 <= i < |s| && p(s[i]) {
      assert p((s + [e])[i]);
    }
  }

  /** Exchanging the last entry for one of the same reference leaves all other requirements
      as they are. */
  lemma RequirementsExchange(c: FieldChecks, q: GateInput, reload: Reload, e: ReloadEntry, f: ReloadEntry)
    requires RefOf(c, e) == RefOf(c, f)
    requires !IsSource(e) && !IsLedger(e) && !IsAudit(e) && !IsSource(f) && !IsLedger(f) && !IsAudit(f)
    requires Requirements(c, q, With(reload, e))
    ensures Requirements(c, q, With(reload, f))
       <==> Any(GoodUsage, With(reload, f).entries) || Any(GoodHealth, With(reload, f).entries)
  {
    var s := reload.entries;
    AnyWith(IsSource, s, e);
    AnyWith(IsSource, s, f);
    AnyWith(IsLedger, s, e);
    AnyWith(IsLedger, s, f);
    AnyWith(AuditTest(q), s, e);
    AnyWith(AuditTest(q), s, f);
    AnyWith(ReservationTest(q), s, e);
    AnyWith(ReservationTest(q), s, f);
    assert Map(x => RefOf(c, x), s + [e]) == Map(x => RefOf(c, x), s + [f]);
  }

  /** Which health record opens the gate, where there is no other and no usable usage record:
      exactly one that is fresh, dispatchable, healthy and without a failure. */
  lemma HealthDecides(c: FieldChecks, q: GateInput, reload: Reload, id: Text, ref: Option<Text>,
                      isFresh: bool, dispatchable: bool, healthy: bool, noFailure: bool)
    requires !Any(GoodUsage, reload.entries) && !Any(IsHealth, reload.entries)
    requires Passed(c, q, With(reload, HealthEntry(id, ref, true, true, true, true)))
    ensures Passed(c, q, With(reload, HealthEntry(id, ref, isFresh, dispatchable, healthy, noFailure)))
       <==> isFresh && dispatchable && healthy && noFailure
  {
    var good := HealthEntry(id, ref, true, true, true, true);
    var given := HealthEntry(id, ref, isFresh, dispatchable, healthy, noFailure);
    var s := reload.entries;
    PassedNeeds(c, q, With(reload, good));
    RequirementsExchange(c, q, reload, good, given);
    AnyWith(GoodUsage, s, given);
    AnyWith(GoodHealth, s, given);
    if Any(GoodHealth, s) {
      GoodHealthIsHealth(s);
    }
    if Requirements(c, q, With(reload, given)) {
      RequirementsSuffice(c, q, With(reload, given));
    } else if Passed(c, q, With(reload, given)) {
      PassedNeeds(c, q, With(reload, given));
    }
  }

  /** Which usage record opens it, where there is no other and no good health record: exactly
      one that is fresh and dispatchable. */
  lemma UsageDecides(c: FieldChecks, q: GateInput, reload: Reload, id: Text, ref: Option<Text>,
                     isFresh: bool, dispatchable: bool)
    requires !Any(GoodUsage, reload.entries) && !Any(GoodHealth, reload.entries)
    requires Passed(c, q, With(reload, UsageEntry(id, ref, true, true)))
    ensures Passed(c, q, With(reload, UsageEntry(id, ref, isFresh, dispatchable))) <==> isFresh && dispatchable
  {
    var good, given := UsageEntry(id, ref, true, true), UsageEntry(id, ref, isFresh, dispatchable);
    var s := reload.entries;
    PassedNeeds(c, q, With(reload, good));
    RequirementsExchange(c, q, reload, good, given);
    AnyWith(GoodUsage, s, given);
    AnyWith(GoodHealth, s, given);
    if Requirements(c, q, With(reload, given)) {
      RequirementsSuffice(c, q, With(reload, given));
    } else if Passed(c, q, With(reload, given)) {
      PassedNeeds(c, q, With(reload, given));
    }
  }

  /** An open gate has an audit of this workflow under the given ref, of this attempt if one
      is given, and referring to no other decision. */
  lemma PassedIsAudited(c: FieldChecks, q: GateInput, reload: Reload)
    requires Passed(c, q, reload)
    ensures exists e :: && e in reload.entries && e.evidence.AuditRecord? && e.evidence.workflow == Some(q.workflowId)
                        && q.auditRef != None && e.evidence.preDispatchAuditRef == q.auditRef
                        && (q.attemptId == None || e.evidence.attempt == q.attemptId)
                        && e.evidence.approvalRef in {None, Some(q.decision.value.id)}
  {
    PassedNeeds(c, q, reload);
    var i :| 0 <= i < |reload.entries| && AuditTest(q)(reload.entries[i]);
    assert reload.entries[i] in reload.entries;
  }

  /** `x` is reserved in a ledger of the reload, for the attempt and under the key asked for. */
  ghost predicate ReservedIn(q: GateInput, s: seq<ReloadEntry>)
  {
    exists e, x :: && e in s && e.evidence.LedgerRecord? && x in e.evidence.ledger.entries && x.state == Reserved
                   && (q.attemptId == None || q.attemptId == Some(x.attemptId))
                   && (q.key == None || q.key == Some(x.key))
  }

  /** Asked for an attempt or a key, the gate opens only on a reservation of both. */
  lemma PassedIsReserved(c: FieldChecks, q: GateInput, reload: Reload)
    requires Passed(c, q, reload) && (q.attemptId != None || q.key != None)
    ensures ReservedIn(q, reload.entries)
  {
    PassedNeeds(c, q, reload);
    var i :| 0 <= i < |reload.entries| && ReservationTest(q)(reload.entries[i]);
    var held := reload.entries[i].evidence.ledger.entries;
    var k :| 0 <= k < |held| && Holds(q, held[k]);
    assert reload.entries[i] in reload.entries && held[k] in held;
  }

  ghost predicate HasMarker(s: seq<ReloadEntry>, kind: MarkerKind)
  {
    exists e :: e in s && e.evidence.Marker? && e.evidence.kind == kind
  }

  lemma AnyMarker(s: seq<ReloadEntry>, kind: MarkerKind)
    ensures Any(MarkerTest(kind), s) <==> HasMarker(s, kind)
  {
    if e :| e in s && e.evidence.Marker? && e.evidence.kind == kind {
      var i :| 0 <= i < |s| && s[i] == e;
      assert MarkerTest(kind)(s[i]);
    }
    if i :| 0 <= i < |s| && MarkerTest(kind)(s[i]) {
      assert s[i] in s;
    }
  }

  /** Each of the three platform labels is raised exactly if the record of its class is not
      there. */
  lemma MarkerLabels(q: GateInput, ok: bool, blocked: nat, s: seq<ReloadEntry>)
    ensures var checks := EvidenceChecks(q, ok, blocked, FindingsOf(q, s));
      && (Raised(checks, RuntimeEchoMissing) <==> !HasMarker(s, RuntimeEcho))
      && (Raised(checks, TelemetryMissing) <==> !HasMarker(s, TelemetryCorrelation))
      && (Raised(checks, UsageAuthorityMissing) <==> !HasMarker(s, UsageAuthority))
  {
    AnyMarker(s, RuntimeEcho);
    AnyMarker(s, TelemetryCorrelation);
    AnyMarker(s, UsageAuthority);
    var checks := EvidenceChecks(q, ok, blocked, FindingsOf(q, s));
    RaisedOnce(checks, 2);
    RaisedOnce(checks, 3);
    RaisedOnce(checks, 4);
  }

  lemma AnyOne(p: ReloadEntry -> bool, e: ReloadEntry)
    ensures Any(p, [e]) <==> p(e)
  {
    assert [e][0] == e;
  }

  /** What the labels say of a single health record. */
  lemma OneHealthRecord(id: Text, ref: Option<Text>, isFresh: bool, dispatchable: bool, healthy: bool, noFailure: bool)
    ensures var s := [HealthEntry(id, ref, isFresh, dispatchable, healthy, noFailure)];
      && !HealthBlocks(s, HealthMissing)
      && (HealthBlocks(s, HealthNotFresh) <==> !isFresh)
      && (HealthBlocks(s, HealthNotDispatchable) <==> !dispatchable || (isFresh && !(healthy && noFailure)))
    ensures HealthBlocks([], HealthMissing)
  {
    var e := HealthEntry(id, ref, isFresh, dispatchable, healthy, noFailure);
    AnyOne(GoodUsage, e);
    AnyOne(IsHealth, e);
    AnyOne(GoodHealth, e);
    AnyOne(FreshHealth, e);
    AnyOne(DispatchableHealth, e);
  }

  lemma RefsMember(used: bool, r: Option<Checked>, t: Text)
    ensures t in RefsOf(used, r) <==> used && r.Some? && r.value.valid && t in r.value.refs
  {
  }

  /** With all five refs given and valid results, what the input itself counts as evidence: the
      refs, those of the results, and the lane refs. */
  lemma InputRefsMean(c: FieldChecks, q: GateInput, reload: Reload, t: Text)
    requires ErrorFree(c, q, reload)
    ensures t in InputRefs(q) <==>
      || Some(t) in {q.auditRef, q.verificationRef, q.captureRef, q.authPolicyRef, q.providerPolicyRef}
      || t in q.verification.value.refs || t in q.capture.value.refs || t in q.policy.value.refs || t in q.laneRefs
  {
    RefsMember(true, q.verification, t);
    RefsMember(true, q.capture, t);
    RefsMember(true, q.policy, t);
  }

  /** The labels of the verification result; capture and policy go the same way. */
  lemma ResultLabelsMean(q: GateInput)
    ensures Raised(ResultChecks(q), VerificationInvalid) <==> q.verification.Some? && !q.verification.value.valid
    ensures Raised(ResultChecks(q), VerificationFailed)
       <==> q.verification.Some? && q.verification.value.valid && !q.verification.value.passed
    ensures Raised(ResultChecks(q), VerificationResultMissing)
       <==> q.verificationRef != None && !(q.verification.Some? && q.verification.value.valid)
    ensures Raised(ResultChecks(q), CaptureInvalid) <==> q.capture.Some? && !q.capture.value.valid
    ensures Raised(ResultChecks(q), CaptureFailed)
       <==> q.capture.Some? && q.capture.value.valid && !q.capture.value.passed
    ensures Raised(ResultChecks(q), CaptureResultMissing)
       <==> q.captureRef != None && !(q.capture.Some? && q.capture.value.valid)
    ensures Raised(ResultChecks(q), PolicyFailed)
       <==> q.policy.Some? && q.policy.value.valid && !q.policy.value.passed
  {
    var checks := ResultChecks(q);
    RaisedOnce(checks, 0);
    RaisedOnce(checks, 1);
    RaisedOnce(checks, 2);
    RaisedOnce(checks, 3);
    RaisedOnce(checks, 4);
    RaisedOnce(checks, 5);
    RaisedOnce(checks, 7);
  }

  /** Adding evidence never closes the gate: it stays open on every reload that holds at
      least the same entries, in whatever order. */
  lemma GateMonotone(c: FieldChecks, q: GateInput, reload: Reload, more: seq<ReloadEntry>)
    requires Passed(c, q, reload) && Included(reload.entries, more)
    ensures Passed(c, q, reload.(entries := more))
  {
    var s := reload.entries;
    PassedNeeds(c, q, reload);
    AnyGrows(IsSource, s, more);
    AnyGrows(IsLedger, s, more);
    AnyGrows(AuditTest(q), s, more);
    if ReservationAsked(q) {
      AnyGrows(ReservationTest(q), s, more);
    }
    if Any(GoodUsage, s) {
      AnyGrows(GoodUsage, s, more);
    } else {
      AnyGrows(GoodHealth, s, more);
    }
    RefsGrow(c, q, s, more);
    RequirementsSuffice(c, q, reload.(entries := more));
  }

  lemma RefsGrow(c: FieldChecks, q: GateInput, a: seq<ReloadEntry>, b: seq<ReloadEntry>)
    requires Included(a, b)
    ensures forall r :: r in EvidenceRefs(c, q, a) ==> r in EvidenceRefs(c, q, b)
  {
    var f := e => RefOf(c, e);
    UniqueMembers(Map(f, a) + InputRefs(q));
    UniqueMembers(Map(f, b) + InputRefs(q));
    forall r | r in Map(f, a)
      ensures r in Map(f, b)
    {
      var i :| 0 <= i < |a| && Map(f, a)[i] == r;
      assert a[i] in b;
      var j :| 0 <= j < |b| && b[j] == a[i];
      assert Map(f, b)[j] == r;
    }
  }
}
