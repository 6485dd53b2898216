/** The check made right before a dispatch call: a manifest against the consumed
    approval, and against the durable evidence reloaded for its workflow. */
module Precall {
  import opened Collections
  import opened Texts
  import opened Checks
  import opened DispatchLedger
  import opened ApprovalSource
  import opened SessionEvidence

  datatype ManifestState =
    | Planned | AuditCommitted | ApprovalConsumed | CallPermitted | DispatchFailedState | QuarantinedState

  datatype Manifest = Manifest(
    workflowId: Text, attemptId: Text, state: ManifestState, actorRef: Text, profileRef: Text, model: Text,
    bindingHash: Text, bundleHash: Text, evidenceRefs: seq<Text>, approvalRef: Text, consumedApprovalRef: Option<Text>,
    guardRef: Text, auditRef: Text, auditCommitted: bool, key: Text, createdAt: Stamp, updatedAt: Stamp)

  predicate ManifestRefs(c: FieldChecks, m: Manifest)
  {
    && c.opaqueId(m.workflowId) && c.opaqueId(m.attemptId) && c.opaqueId(m.actorRef) && c.opaqueId(m.profileRef)
    && c.model(m.model) && c.hashRef(m.bindingHash) && c.hashRef(m.bundleHash)
    && (forall r :: r in m.evidenceRefs ==> c.opaqueId(r) && c.clean(r))
    && c.opaqueId(m.approvalRef) && (m.consumedApprovalRef.Some? ==> c.opaqueId(m.consumedApprovalRef.value))
    && c.opaqueId(m.guardRef) && c.opaqueId(m.auditRef) && c.opaqueId(m.key)
    && c.clean(m.bindingHash) && c.clean(m.bundleHash) && c.clean(m.key)
    && c.clean(m.createdAt.text) && c.clean(m.updatedAt.text)
  }

  predicate ReadyState(m: Manifest)
  {
    m.state.ApprovalConsumed? || m.state.CallPermitted?
  }

  /** The validator's clauses that relate the state to the other fields. */
  predicate ManifestShape(m: Manifest)
  {
    && (ReadyState(m) ==> m.consumedApprovalRef.Some? && m.auditCommitted)
    && (m.state.Planned? ==> m.consumedApprovalRef.None? && !m.auditCommitted)
    && (m.state.AuditCommitted? ==> m.auditCommitted)
    && Parses(m.createdAt) && Parses(m.updatedAt) && m.createdAt.ms.value <= m.updatedAt.ms.value
  }

  predicate ValidManifest(c: FieldChecks, m: Manifest)
  {
    ManifestRefs(c, m) && ManifestShape(m)
  }

  // ---- Manifest against approval ---------------------------------------------

  datatype BaseLabel =
    | ManifestInvalid | AuditNotCommitted | ApprovalNotConsumed | StateNotReady | ApprovalMissing | ApprovalInvalid
    | RefMismatch | AttemptMismatch | ActorMismatch | ProfileMismatch | ModelMismatch | BindingMismatch
    | BundleMismatch | GuardMismatch

  /** The checks of the manifest and their labels, in the order they are made. */
  function ManifestChecks(m: Manifest, manifestOk: bool): seq<(bool, BaseLabel)>
  {
    [(!manifestOk, ManifestInvalid),
     (!m.auditCommitted, AuditNotCommitted),
     (m.consumedApprovalRef.None?, ApprovalNotConsumed),
     (!m.state.ApprovalConsumed? && !m.state.CallPermitted?, StateNotReady)]
  }

  /** The checks of the approval against the manifest. */
  function ApprovalChecks(m: Manifest, a: Approval, approvalOk: bool): seq<(bool, BaseLabel)>
  {
    [(!approvalOk, ApprovalInvalid),
     (a.consumedAt.None?, ApprovalNotConsumed),
     (a.id != m.approvalRef, RefMismatch),
     (a.consumedBy != Some(m.attemptId), AttemptMismatch),
     (a.actorRef != m.actorRef, ActorMismatch),
     (a.profileRef != m.profileRef, ProfileMismatch),
     (a.model != m.model, ModelMismatch),
     (a.bindingHash != m.bindingHash, BindingMismatch),
     (a.bundleHash != m.bundleHash, BundleMismatch),
     (a.guardRef != m.guardRef, GuardMismatch)]
  }

  function BaseChecks(m: Manifest, manifestOk: bool, approval: Option<Approval>, approvalOk: bool)
    : seq<(bool, BaseLabel)>
  {
    ManifestChecks(m, manifestOk)
    + if approval.None? then [(true, ApprovalMissing)] else ApprovalChecks(m, approval.value, approvalOk)
  }

  predicate ApprovalBound(m: Manifest, a: Approval)
  {
    && a.id == m.approvalRef && a.consumedBy == Some(m.attemptId) && a.actorRef == m.actorRef
    && a.profileRef == m.profileRef && a.model == m.model && a.bindingHash == m.bindingHash
    && a.bundleHash == m.bundleHash && a.guardRef == m.guardRef
  }

  /** No check strikes exactly when the call is permitted. */
  lemma NoLabelMeans(m: Manifest, manifestOk: bool, approval: Option<Approval>, approvalOk: bool)
    requires manifestOk ==> (ReadyState(m) ==> m.auditCommitted && m.consumedApprovalRef.Some?)
    ensures Clear(BaseChecks(m, manifestOk, approval, approvalOk))
       <==> && manifestOk && ReadyState(m) && approval.Some? && approvalOk
            && approval.value.consumedAt.Some? && ApprovalBound(m, approval.value)
  {
    var first := ManifestChecks(m, manifestOk);
    var checks := BaseChecks(m, manifestOk, approval, approvalOk);
    assert Clear(first) <==> manifestOk && m.auditCommitted && m.consumedApprovalRef.Some? && ReadyState(m) by {
      assert Clear(first) ==> !first[0].0 && !first[1].0 && !first[2].0 && !first[3].0;
    }
    assert forall k :: 0 <= k < 4 ==> checks[k] == first[k];
    if approval.None? {
      assert checks[4].0;
    } else {
      var second := ApprovalChecks(m, approval.value, approvalOk);
      ApprovalClear(m, approval.value, approvalOk);
      assert forall k :: 0 <= k < 10 ==> checks[k + 4] == second[k];
      assert Clear(checks) <==> Clear(first) && Clear(second) by {
        assert forall k :: 4 <= k < 14 ==> checks[k] == second[k - 4];
      }
    }
  }

  lemma ApprovalClear(m: Manifest, a: Approval, approvalOk: bool)
    ensures Clear(ApprovalChecks(m, a, approvalOk)) <==> approvalOk && a.consumedAt.Some? && ApprovalBound(m, a)
  {
    var checks := ApprovalChecks(m, a, approvalOk);
    if Clear(checks) {
      assert !checks[0].0 && !checks[1].0 && !checks[2].0 && !checks[3].0 && !checks[4].0;
      assert !checks[5].0 && !checks[6].0 && !checks[7].0 && !checks[8].0 && !checks[9].0;
    }
  }

  /** What the check without evidence permits: a valid, ready manifest with a valid
      consumed approval bound to it in every field. */
  predicate BasePermits(c: FieldChecks, m: Manifest, approval: Option<Approval>)
  {
    && ValidManifest(c, m) && ReadyState(m) && approval.Some? && ApprovalValid(c, m, approval)
    && approval.value.consumedAt.Some? && ApprovalBound(m, approval.value)
  }

  predicate ApprovalValid(c: FieldChecks, m: Manifest, approval: Option<Approval>)
  {
    approval.Some? ==> ValidApproval(c, approval.value, m.workflowId)
  }

  /** `ok` says that no validator complained. */
  method EvaluateBase(c: FieldChecks, m: Manifest, approval: Option<Approval>)
    returns (permitted: bool, ok: bool, labels: seq<BaseLabel>)
    ensures NoDup(labels)
    ensures forall l :: l in labels <==>
              Raised(BaseChecks(m, ValidManifest(c, m), approval, ApprovalValid(c, m, approval)), l)
    ensures ok <==> ValidManifest(c, m) && ApprovalValid(c, m, approval)
    ensures permitted <==> BasePermits(c, m, approval)
    ensures labels == [] <==> permitted
  {
    var manifestOk, approvalOk := ValidManifest(c, m), ApprovalValid(c, m, approval);
    var checks := BaseChecks(m, manifestOk, approval, approvalOk);
    var blocked := Raise(checks);
    UniqueMembers(blocked);
    labels := Unique(blocked);
    ok := manifestOk && approvalOk;
    permitted := ok && labels == [];
    NoLabelMeans(m, manifestOk, approval, approvalOk);
    ClearMeans(checks);
    assert labels != [] ==> labels[0] in labels;
  }

  // ---- Manifest against reloaded evidence ------------------------------------

  datatype Label =
    | Base(base: BaseLabel) | Idempotency(replay: ReplayLabel) | ReloadInvalid | ReloadHasBlocked
    | SourceMissing | SourceInvalid | AuditMissing | AuditMismatch | SnapshotAbsent | SnapshotBad
    | RegateAttemptMismatch | RegateEvidenceMissing

  predicate IsApproval(m: Manifest, e: ReloadEntry)
  {
    e.evidence.ApprovalRecord? && e.evidence.approval.id == m.approvalRef
  }

  predicate IsAudit(m: Manifest, e: ReloadEntry)
  {
    && e.evidence.AuditRecord?
    && (|| e.id == m.auditRef || e.evidence.preDispatchAuditRef == Some(m.auditRef)
        || e.evidence.auditRef == Some(m.auditRef))
  }

  predicate IsRegate(e: ReloadEntry) { e.evidence.RegateRecord? }

  function SourceEntry(m: Manifest, reload: Reload): Option<ReloadEntry>
  {
    First(e => IsApproval(m, e), reload.entries)
  }

  function AuditEntry(m: Manifest, reload: Reload): Option<ReloadEntry>
  {
    First(e => IsAudit(m, e), reload.entries)
  }

  function LedgerEntryOf(reload: Reload): Option<ReloadEntry>
  {
    First(IsLedger, reload.entries)
  }

  function FirstLedger(reload: Reload): Option<Ledger>
  {
    var e := LedgerEntryOf(reload);
    if e.Some? && IsLedger(e.value) then Some(e.value.evidence.ledger) else None
  }

  /** The reloaded approval, if it passes the validator. */
  function ReloadedApproval(c: FieldChecks, m: Manifest, reload: Reload): Option<Approval>
  {
    var e := SourceEntry(m, reload);
    if e.Some? && IsApproval(m, e.value) && ValidApproval(c, e.value.evidence.approval, m.workflowId)
    then Some(e.value.evidence.approval) else None
  }

  predicate AuditDisagrees(m: Manifest, e: ReloadEntry)
  {
    && e.evidence.AuditRecord?
    && (|| (e.evidence.workflow.Some? && e.evidence.workflow.value != m.workflowId)
        || (e.evidence.attempt.Some? && e.evidence.attempt.value != m.attemptId))
  }

  /** The fallback plan found first, if it demands a full regate. */
  function ActiveRegate(reload: Reload): Option<Evidence>
  {
    var e := First(IsRegate, reload.entries);
    if e.Some? && IsRegate(e.value) && e.value.evidence.fullRegate then Some(e.value.evidence) else None
  }

  ghost predicate RegateEvidenceLoaded(reload: Reload, refs: seq<Text>)
  {
    forall r :: r in refs ==> exists e :: e in reload.entries && e.id == r
  }

  /** A demanded full regate is for this attempt and its evidence is there. */
  ghost predicate RegateMet(m: Manifest, reload: Reload)
  {
    var r := ActiveRegate(reload);
    r.Some? && r.value.RegateRecord? ==>
      r.value.newAttempt == Some(m.attemptId) && RegateEvidenceLoaded(reload, r.value.requiredRefs)
  }

  /** What the durable check permits: a clean reload whose first approval source of that
      id is valid, consumed and bound to the manifest, a matching audit record, a first
      ledger under which the dispatch is still new, and no unmet fallback plan. */
  ghost predicate DurablePermits(c: FieldChecks, m: Manifest, reload: Reload)
  {
    && reload.ok && reload.blocked == 0
    && BasePermits(c, m, ReloadedApproval(c, m, reload))
    && AuditEntry(m, reload).Some?
    && !AuditDisagrees(m, AuditEntry(m, reload).value)
    && ReplaySafe(c, m.workflowId, m.attemptId, m.key, FirstLedger(reload))
    && RegateMet(m, reload)
  }

  /** When the fallback plan blocks. */
  ghost predicate RegateBlocks(m: Manifest, reload: Reload, l: Label)
  {
    var r := ActiveRegate(reload);
    && r.Some? && r.value.RegateRecord?
    && match l
       case RegateAttemptMismatch => r.value.newAttempt != Some(m.attemptId)
       case RegateEvidenceMissing => !RegateEvidenceLoaded(reload, r.value.requiredRefs)
       case _ => false
  }

  /** The labels the fallback plan adds, looking for the first ref that is not loaded. */
  method RegateLabels(m: Manifest, reload: Reload) returns (blocked: seq<Label>)
    ensures forall l :: l in blocked <==> RegateBlocks(m, reload, l)
  {
    blocked := [];
    var plan := ActiveRegate(reload);
    if plan.Some? && plan.value.RegateRecord? {
      if plan.value.newAttempt != Some(m.attemptId) {
        blocked := blocked + [RegateAttemptMismatch];
      }
      var refs := plan.value.requiredRefs;
      var loaded := set e | e in reload.entries :: e.id;
      for i := 0 to |refs|
        invariant forall j :: 0 <= j < i ==> refs[j] in loaded
        invariant blocked == if plan.value.newAttempt != Some(m.attemptId) then [RegateAttemptMismatch] else []
      {
        if refs[i] !in loaded {
          assert !RegateEvidenceLoaded(reload, refs) by {
            assert refs[i] in refs;
          }
          blocked := blocked + [RegateEvidenceMissing];
          return;
        }
      }
      assert RegateEvidenceLoaded(reload, refs);
    }
  }

  /** What looking into the reload turned up. */
  datatype Findings = Findings(
    sourceFound: bool, sourceOk: bool, auditFound: bool, auditAgrees: bool, ledgerFound: bool, ledgerOk: bool)

  /** The checks of the reload itself. */
  function ReloadChecks(reload: Reload, f: Findings): seq<(bool, Label)>
  {
    [(!reload.ok, ReloadInvalid),
     (reload.blocked > 0, ReloadHasBlocked),
     (!f.sourceFound, SourceMissing),
     (f.sourceFound && !f.sourceOk, SourceInvalid),
     (!f.auditFound, AuditMissing),
     (f.auditFound && !f.auditAgrees, AuditMismatch),
     (!f.ledgerFound, SnapshotAbsent),
     (f.ledgerFound && !f.ledgerOk, SnapshotBad)]
  }

  function FindingsOf(c: FieldChecks, m: Manifest, reload: Reload, ledgerOk: bool): Findings
  {
    var audit := AuditEntry(m, reload);
    Findings(SourceEntry(m, reload).Some?, ReloadedApproval(c, m, reload).Some?,
             audit.Some?, audit.Some? && !AuditDisagrees(m, audit.value), FirstLedger(reload).Some?, ledgerOk)
  }

  /** Whether the first ledger, if there is one, passes its validator. */
  ghost predicate FirstLedgerValid(c: FieldChecks, m: Manifest, reload: Reload)
  {
    FirstLedger(reload).Some? ==> ValidLedger(c, FirstLedger(reload).value, m.workflowId)
  }

  /** The two verdicts the base check is made with, on the reloaded approval. */
  function ReloadedBaseChecks(c: FieldChecks, m: Manifest, reload: Reload): seq<(bool, BaseLabel)>
  {
    var approval := ReloadedApproval(c, m, reload);
    BaseChecks(m, ValidManifest(c, m), approval, ApprovalValid(c, m, approval))
  }

  /** When a label blocks the durable check: for its own check, or carried over from the
      base check or the replay check. */
  ghost predicate DurableBlocks(c: FieldChecks, m: Manifest, reload: Reload, l: Label)
  {
    || (l.Base? && Raised(ReloadedBaseChecks(c, m, reload), l.base))
    || Raised(ReloadChecks(reload, FindingsOf(c, m, reload, FirstLedgerValid(c, m, reload))), l)
    || RegateBlocks(m, reload, l)
    || (l.Idempotency? && ReplayBlocks(c, m.workflowId, m.attemptId, m.key, FirstLedger(reload), l.replay))
  }

  /** The labels of the base check and the replay check, marked as such, around the rest. */
  function Combined(base: seq<BaseLabel>, rest: seq<Label>, replay: seq<ReplayLabel>): seq<Label>
  {
    Map((b: BaseLabel) => Base(b), base) + rest + Map((q: ReplayLabel) => Idempotency(q), replay)
  }

  lemma CombinedMember(base: seq<BaseLabel>, rest: seq<Label>, replay: seq<ReplayLabel>, l: Label)
    ensures l in Combined(base, rest, replay)
       <==> (l.Base? && l.base in base) || l in rest || (l.Idempotency? && l.replay in replay)
  {
    MapMember((b: BaseLabel) => Base(b), base, l);
    MapMember((q: ReplayLabel) => Idempotency(q), replay, l);
  }

  /** The labels of the durable check: base check, reload, fallback plan and replay check. */
  method DurableLabels(c: FieldChecks, m: Manifest, reload: Reload)
    returns (labels: seq<Label>, ledgerOk: bool, baseOk: bool)
    ensures NoDup(labels) && forall l :: l in labels <==> DurableBlocks(c, m, reload, l)
    ensures ledgerOk <==> FirstLedgerValid(c, m, reload)
    ensures baseOk <==> ValidManifest(c, m) && ApprovalValid(c, m, ReloadedApproval(c, m, reload))
  {
    var ledger := FirstLedger(reload);
    ledgerOk := true;
    if ledger.Some? {
      ledgerOk := ValidateLedger(c, ledger.value, m.workflowId);
    }
    var fromReload := Raise(ReloadChecks(reload, FindingsOf(c, m, reload, ledgerOk)));
    var replaySafe, replayLabels := EvaluateReplay(c, m.workflowId, m.attemptId, m.key, ledger);
    var regate := RegateLabels(m, reload);
    var permitted, ok, baseLabels := EvaluateBase(c, m, ReloadedApproval(c, m, reload));
    baseOk := ok;
    if replaySafe {
      replayLabels := [];
    }
    var blocked := Combined(baseLabels, fromReload + regate, replayLabels);
    forall l
      ensures l in blocked <==> DurableBlocks(c, m, reload, l)
    {
      CombinedMember(baseLabels, fromReload + regate, replayLabels, l);
    }
    UniqueMembers(blocked);
    labels := Unique(blocked);
  }

  method EvaluateDurable(c: FieldChecks, m: Manifest, reload: Reload) returns (permitted: bool, labels: seq<Label>)
    ensures NoDup(labels) && forall l :: l in labels <==> DurableBlocks(c, m, reload, l)
    ensures permitted <==> DurablePermits(c, m, reload)
    ensures permitted ==> labels == []
  {
    var ledgerOk, baseOk;
    labels, ledgerOk, baseOk := DurableLabels(c, m, reload);
    var sourceOk := SourceEntry(m, reload).None? || ReloadedApproval(c, m, reload).Some?;
    permitted := && reload.ok && sourceOk && ledgerOk && ValidIds(c, m.workflowId, m.attemptId, m.key) && baseOk
                 && labels == [];
    NoDurableLabelMeans(c, m, reload);
    assert labels != [] ==> labels[0] in labels;
  }

  /** Nothing blocks exactly when the call is permitted. */
  lemma NoDurableLabelMeans(c: FieldChecks, m: Manifest, reload: Reload)
    ensures ((forall l :: !DurableBlocks(c, m, reload, l)) && ValidIds(c, m.workflowId, m.attemptId, m.key))
       <==> DurablePermits(c, m, reload)
  {
    var f := FindingsOf(c, m, reload, FirstLedgerValid(c, m, reload));
    var approval, ledger := ReloadedApproval(c, m, reload), FirstLedger(reload);
    NoLabelMeans(m, ValidManifest(c, m), approval, ApprovalValid(c, m, approval));
    ClearMeans(ReloadedBaseChecks(c, m, reload));
    ReloadClear(reload, f);
    ClearMeans(ReloadChecks(reload, f));
    NoRegateLabelMeans(m, reload);
    NoReplayLabelMeans(c, m.workflowId, m.attemptId, m.key, ledger);
    if forall l :: !DurableBlocks(c, m, reload, l) {
      forall b
        ensures !Raised(ReloadedBaseChecks(c, m, reload), b)
      {
        assert !DurableBlocks(c, m, reload, Base(b));
      }
      forall q
        ensures !ReplayBlocks(c, m.workflowId, m.attemptId, m.key, ledger, q)
      {
        assert !DurableBlocks(c, m, reload, Idempotency(q));
      }
      forall l
        ensures !Raised(ReloadChecks(reload, f), l) && !RegateBlocks(m, reload, l)
      {
        assert !DurableBlocks(c, m, reload, l);
      }
    }
  }

  lemma NoRegateLabelMeans(m: Manifest, reload: Reload)
    ensures (forall l :: !RegateBlocks(m, reload, l)) <==> RegateMet(m, reload)
  {
    if forall l :: !RegateBlocks(m, reload, l) {
      assert !RegateBlocks(m, reload, RegateAttemptMismatch) && !RegateBlocks(m, reload, RegateEvidenceMissing);
    }
  }

  lemma ReloadClear(reload: Reload, f: Findings)
    ensures Clear(ReloadChecks(reload, f)) <==>
      && reload.ok && reload.blocked == 0 && f.sourceFound && f.sourceOk
      && f.auditFound && f.auditAgrees && f.ledgerFound && f.ledgerOk
  {
    var checks := ReloadChecks(reload, f);
    if Clear(checks) {
      assert !checks[0].0 && !checks[1].0 && !checks[2].0 && !checks[3].0;
      assert !checks[4].0 && !checks[5].0 && !checks[6].0 && !checks[7].0;
    }
  }

  // ---- The fallback plan -----------------------------------------------------

  function NoPlan(): ReloadEntry -> bool { (e: ReloadEntry) => !e.evidence.RegateRecord? }

  ghost predicate IsFirstPlan(s: seq<ReloadEntry>, i: nat)
  {
    i < |s| && s[i].evidence.RegateRecord? && forall j :: 0 <= j < i ==> !s[j].evidence.RegateRecord?
  }

  /** The fallback plan found first, if it asks for a full regate, wants this very attempt and
      its evidence in the reload. */
  ghost predicate FirstPlanMet(m: Manifest, s: seq<ReloadEntry>)
  {
    forall i: nat :: IsFirstPlan(s, i) && s[i].evidence.fullRegate ==>
      && s[i].evidence.newAttempt == Some(m.attemptId)
      && forall r :: r in s[i].evidence.requiredRefs ==> exists e :: e in s && e.id == r
  }

  lemma RegateMetIff(m: Manifest, reload: Reload)
    ensures RegateMet(m, reload) <==> FirstPlanMet(m, reload.entries)
  {
    var s := reload.entries;
    if First(IsRegate, s).Some? {
      var k := FirstAt(IsRegate, s);
      assert forall j :: 0 <= j < k ==> !IsRegate(s[j]);
      assert IsFirstPlan(s, k) && IsRegate(s[k]);
      forall i: nat | IsFirstPlan(s, i)
        ensures i == k
      {
        assert IsRegate(s[i]);
      }
    } else {
      forall i: nat | i < |s|
        ensures !IsFirstPlan(s, i)
      {
        assert s[i] in s && !IsRegate(s[i]);
      }
    }
  }

  function WithoutPlans(reload: Reload): Reload
  {
    reload.(entries := Filter(NoPlan(), reload.entries))
  }

  lemma PlansHideNothing(m: Manifest, reload: Reload)
    ensures SourceEntry(m, WithoutPlans(reload)) == SourceEntry(m, reload)
    ensures AuditEntry(m, WithoutPlans(reload)) == AuditEntry(m, reload)
    ensures FirstLedger(WithoutPlans(reload)) == FirstLedger(reload)
  {
    FirstFiltered(e => IsApproval(m, e), NoPlan(), reload.entries);
    FirstFiltered(e => IsAudit(m, e), NoPlan(), reload.entries);
    FirstFiltered(IsLedger, NoPlan(), reload.entries);
  }

  /** Fallback plans matter in one way only: the durable check permits a call exactly when it
      would without any plan in the reload, and the first plan, if it demands a full regate,
      is met. */
  lemma PlanEnforcedIff(c: FieldChecks, m: Manifest, reload: Reload)
    ensures DurablePermits(c, m, reload)
       <==> DurablePermits(c, m, WithoutPlans(reload)) && FirstPlanMet(m, reload.entries)
  {
    PlansHideNothing(m, reload);
    RegateMetIff(m, reload);
    FilterMembers(NoPlan(), reload.entries);
    assert First(IsRegate, WithoutPlans(reload).entries).None?;
    assert ReloadedApproval(c, m, WithoutPlans(reload)) == ReloadedApproval(c, m, reload);
  }

  // ---- Which records count ---------------------------------------------------

  /** What a state asks of the manifest: once the approval is consumed, its ref and a committed
      audit; when planned, neither; an audit is committed in the state of that name. */
  lemma ManifestStateDecides(c: FieldChecks, m: Manifest, st: ManifestState, ref: Option<Text>, committed: bool)
    requires ValidManifest(c, m) && (ref.Some? ==> c.opaqueId(ref.value))
    ensures ValidManifest(c, m.(state := st, consumedApprovalRef := ref, auditCommitted := committed)) <==>
      match st
      case Planned => ref == None && !committed
      case AuditCommitted => committed
      case ApprovalConsumed => ref != None && committed
      case CallPermitted => ref != None && committed
      case DispatchFailedState => true
      case QuarantinedState => true
  {
  }

  /** Created no later than updated, both readable and clean. */
  lemma ManifestTimesDecide(c: FieldChecks, m: Manifest, created: Stamp, updated: Stamp)
    requires ValidManifest(c, m)
    ensures ValidManifest(c, m.(createdAt := created, updatedAt := updated)) <==>
      && created.ms.Some? && updated.ms.Some? && created.ms.value <= updated.ms.value
      && c.clean(created.text) && c.clean(updated.text)
  {
  }

  function Before(e: ReloadEntry, reload: Reload): Reload
  {
    reload.(entries := [e] + reload.entries)
  }

  lemma FirstPassesOver(p: ReloadEntry -> bool, e: ReloadEntry, s: seq<ReloadEntry>)
    requires !p(e)
    ensures First(p, [e] + s) == First(p, s)
  {
    assert ([e] + s)[1..] == s;
  }

  lemma PlanStillMet(m: Manifest, e: ReloadEntry, reload: Reload)
    requires RegateMet(m, reload) && !IsRegate(e)
    ensures RegateMet(m, Before(e, reload))
  {
    FirstPassesOver(IsRegate, e, reload.entries);
  }

  /** An approval of another id found first does not stand in the way. */
  lemma OtherApprovalsIgnored(c: FieldChecks, m: Manifest, reload: Reload, e: ReloadEntry)
    requires DurablePermits(c, m, reload) && e.evidence.ApprovalRecord? && e.evidence.approval.id != m.approvalRef
    ensures DurablePermits(c, m, Before(e, reload))
  {
    FirstPassesOver(x => IsApproval(m, x), e, reload.entries);
    FirstPassesOver(x => IsAudit(m, x), e, reload.entries);
    FirstPassesOver(IsLedger, e, reload.entries);
    PlanStillMet(m, e, reload);
  }

  /** Nor does an audit that the manifest does not refer to. */
  lemma OtherAuditsIgnored(c: FieldChecks, m: Manifest, reload: Reload, e: ReloadEntry)
    requires DurablePermits(c, m, reload) && e.evidence.AuditRecord? && e.id != m.auditRef
    requires e.evidence.preDispatchAuditRef != Some(m.auditRef) && e.evidence.auditRef != Some(m.auditRef)
    ensures DurablePermits(c, m, Before(e, reload))
  {
    FirstPassesOver(x => IsApproval(m, x), e, reload.entries);
    FirstPassesOver(x => IsAudit(m, x), e, reload.entries);
    FirstPassesOver(IsLedger, e, reload.entries);
    PlanStillMet(m, e, reload);
  }

  /** A permitted call has its audit on record, under its id or one of the two refs, and naming
      no other workflow or attempt. */
  lemma PermittedIsAudited(c: FieldChecks, m: Manifest, reload: Reload)
    requires DurablePermits(c, m, reload)
    ensures exists e :: && e in reload.entries && e.evidence.AuditRecord?
                        && (|| e.id == m.auditRef || e.evidence.preDispatchAuditRef == Some(m.auditRef)
                            || e.evidence.auditRef == Some(m.auditRef))
                        && e.evidence.workflow in {None, Some(m.workflowId)}
                        && e.evidence.attempt in {None, Some(m.attemptId)}
  {
    var e := AuditEntry(m, reload).value;
    assert IsAudit(m, e) && !AuditDisagrees(m, e);
  }
}
