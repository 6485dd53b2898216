/** How the approval, the ledger, the pre-call check and the production gate fit
    together around a single dispatch. */
module DispatchOnce {
  import opened Collections
  import opened Texts
  import opened Checks
  import opened DispatchLedger
  import opened ApprovalSource
  import opened EvidenceBundle
  import opened SessionEvidence
  import opened Precall
  import Gate = ProductionGate

  lemma GateFindsReservation(c: FieldChecks, q: Gate.GateInput, reload: Reload, attemptId: Text) returns (j: nat)
    requires q.attemptId == Some(attemptId) && Gate.Passed(c, q, reload)
    ensures j < |reload.entries| && reload.entries[j].evidence.LedgerRecord?
    ensures exists e :: e in reload.entries[j].evidence.ledger.entries && e.state.Reserved? && e.attemptId == attemptId
  {
    Gate.PassedNeeds(c, q, reload);
    j :| 0 <= j < |reload.entries| && Gate.ReservationTest(q)(reload.entries[j]);
    var held := reload.entries[j].evidence.ledger.entries;
    var k :| 0 <= k < |held| && Gate.Holds(q, held[k]);
    assert held[k] in held;
  }

  /** The gate scoped to an attempt wants that attempt reserved in some ledger, the
      pre-call check wants it absent from the first one: both pass on one reload only if
      it holds two ledgers, the first without attempt and key, a later one with the
      attempt reserved. */
  lemma GateAndPrecallNeedTwoLedgers(c: FieldChecks, q: Gate.GateInput, m: Manifest, reload: Reload)
    returns (i: nat, j: nat)
    requires q.attemptId == Some(m.attemptId)
    requires Gate.Passed(c, q, reload) && DurablePermits(c, m, reload)
    ensures i < j < |reload.entries|
    ensures reload.entries[i].evidence.LedgerRecord? && reload.entries[j].evidence.LedgerRecord?
    ensures FirstLedger(reload) == Some(reload.entries[i].evidence.ledger)
    ensures var first := reload.entries[i].evidence.ledger.entries;
      !AttemptRecorded(first, m.attemptId) && !KeyRecorded(first, m.key)
    ensures exists e :: && e in reload.entries[j].evidence.ledger.entries
                        && e.state.Reserved? && e.attemptId == m.attemptId
  {
    i := FirstAt(IsLedger, reload.entries);
    j := GateFindsReservation(c, q, reload, m.attemptId);
    var held := reload.entries[j].evidence.ledger.entries;
    var e :| e in held && e.state.Reserved? && e.attemptId == m.attemptId;
    var k :| 0 <= k < |held| && held[k] == e;
    assert AttemptRecorded(held, m.attemptId);
    assert IsLedger(reload.entries[j]);
  }

  /** The gate input asks for no other attempt and no other key than these. */
  predicate AsksFor(q: Gate.GateInput, attemptId: Text, key: Text)
  {
    q.attemptId in {None, Some(attemptId)} && q.key in {None, Some(key)}
  }

  /** A stored reservation is what the gate looks for ... */
  lemma ReservationSatisfiesGate(c: FieldChecks, q: Gate.GateInput, r: Reservation, before: Option<Ledger>,
                                 e: ReloadEntry)
    requires ReserveSpec(c, r, before).Some? && e.evidence == LedgerRecord(ReserveSpec(c, r, before).value)
    requires AsksFor(q, r.attemptId, r.key)
    ensures Gate.HoldsReservation(q, e)
  {
    var entries := e.evidence.ledger.entries;
    assert entries[|entries| - 1] == LedgerEntry(r.attemptId, r.key, Reserved, r.at);
    assert Gate.Holds(q, entries[|entries| - 1]);
  }

  /** ... until the attempt is updated: a settled attempt no longer counts as reserved. */
  lemma SettledNoLongerSatisfiesGate(c: FieldChecks, q: Gate.GateInput, u: Update, before: Option<Ledger>,
                                     after: Option<Ledger>, e: ReloadEntry)
    requires UpdateStep(c, u, before, after) && e.evidence == LedgerRecord(after.value)
    requires q.attemptId == Some(u.attemptId)
    ensures !Gate.HoldsReservation(q, e)
  {
    var former, latter := before.value.entries, after.value.entries;
    var i :| 0 <= i < |former| && former[i].attemptId == u.attemptId && former[i].key == u.key
             && latter == former[i := former[i].(state := u.next, recordedAt := u.at)];
    forall k | 0 <= k < |latter|
      ensures !Gate.Holds(q, latter[k])
    {
      assert k != i ==> former[k].attemptId != former[i].attemptId;
    }
  }

  // ---- Both gates can pass ---------------------------------------------------

  function AllClear(): FieldChecks
  {
    FieldChecks(_ => true, _ => true, _ => true, _ => true, _ => true)
  }

  function At(t: Text, ms: int): Stamp { Stamp(t, Some(ms)) }

  function SpentApproval(t: Text, u: Text): Approval
  {
    Approval(t, t, t, ManagedDispatchBeta, ExternalUserConfirmation, TypedPhrase, t, t, t, t, t, t, t, t,
             At(t, 0), At(t, 2), false, Some(At(t, 1)), Some(t), Some(u))
  }

  function ReadyManifest(t: Text): Manifest
  {
    Manifest(t, t, CallPermitted, t, t, t, t, t, [], t, Some(t), t, t, true, t, At(t, 0), At(t, 0))
  }

  function ScopedInput(t: Text): Gate.GateInput
  {
    var good := Some(Gate.Checked(true, true, []));
    Gate.GateInput(t, Some(t), Some(t), Some(t), Some(t), Some(t), Some(t), Some(t), good, good, good, [], true,
                   Some(Gate.Decision(true, t, true, [], [])))
  }

  /** Approval, audit, usage, and the ledger before and after the reservation. */
  function TwoLedgers(t: Text, u: Text): Reload
  {
    var reserved := LedgerEntry(t, t, Reserved, At(t, 0));
    Reload(true, [], 0,
           [ReloadEntry(t, ApprovalRecord(SpentApproval(t, u))),
            ReloadEntry(t, AuditRecord(Some(t), Some(t), Some(t), None, None)),
            ReloadEntry(t, UsageRecord(None, true, true)),
            ReloadEntry(t, LedgerRecord(Ledger(t, t, At(t, 0), []))),
            ReloadEntry(t, LedgerRecord(Ledger(t, t, At(t, 0), [reserved])))])
  }

  lemma SpentApprovalPermits(t: Text, u: Text)
    requires t != u
    ensures BasePermits(AllClear(), ReadyManifest(t), Some(SpentApproval(t, u)))
  {
  }

  lemma TwoLedgersFound(t: Text, u: Text)
    ensures var (m, reload) := (ReadyManifest(t), TwoLedgers(t, u));
      && SourceEntry(m, reload) == Some(reload.entries[0]) && AuditEntry(m, reload) == Some(reload.entries[1])
      && LedgerEntryOf(reload) == Some(reload.entries[3]) && First(IsRegate, reload.entries) == None
  {
    var m, s := ReadyManifest(t), TwoLedgers(t, u).entries;
    FirstIs(e => IsApproval(m, e), s, 0);
    FirstIs(e => IsAudit(m, e), s, 1);
    FirstIs(IsLedger, s, 3);
  }

  lemma TwoLedgersPermit(t: Text, u: Text)
    requires t != u
    ensures DurablePermits(AllClear(), ReadyManifest(t), TwoLedgers(t, u))
  {
    TwoLedgersFound(t, u);
    SpentApprovalPermits(t, u);
  }

  lemma TwoLedgersOpenTheGate(t: Text, u: Text)
    ensures Gate.Passed(AllClear(), ScopedInput(t), TwoLedgers(t, u))
  {
    var q, s := ScopedInput(t), TwoLedgers(t, u).entries;
    assert Gate.AuditTest(q)(s[1]) && Gate.IsSource(s[0]) && IsLedger(s[3]) && Gate.GoodUsage(s[2]);
    assert Gate.Holds(q, s[4].evidence.ledger.entries[0]);
    assert Gate.ReservationTest(q)(s[4]);
    Gate.RequirementsSuffice(AllClear(), q, TwoLedgers(t, u));
  }

  /** With the ledger before the reservation and the one after it, both checks do pass. */
  lemma BothGatesCanPass(t: Text, u: Text)
    requires t != u
    ensures ScopedInput(t).attemptId == Some(ReadyManifest(t).attemptId)
    ensures Gate.Passed(AllClear(), ScopedInput(t), TwoLedgers(t, u))
    ensures DurablePermits(AllClear(), ReadyManifest(t), TwoLedgers(t, u))
  {
    TwoLedgersPermit(t, u);
    TwoLedgersOpenTheGate(t, u);
  }

  /** A permitted call finds its reservation still open: reserving on the ledger the
      check looked at succeeds exactly when the ledger has room. */
  lemma PermittedCanReserve(c: FieldChecks, m: Manifest, reload: Reload, snapshotRef: Text, at: Stamp)
    requires DurablePermits(c, m, reload)
    requires c.opaqueId(snapshotRef) && Parses(at) && c.clean(at.text)
    ensures FirstLedger(reload).Some?
    ensures ReserveSpec(c, Reservation(m.workflowId, m.attemptId, m.key, snapshotRef, at), FirstLedger(reload)).Some?
       <==> |FirstLedger(reload).value.entries| < MAX_ENTRIES
  {
    ReserveIffReplaySafe(c, Reservation(m.workflowId, m.attemptId, m.key, snapshotRef, at), FirstLedger(reload).value);
  }

  /** Once a reservation for the attempt or the key was stored at step `i` of a run, no
      reload that starts from any later ledger permits the call again. */
  lemma NotPermittedAfterReservation(c: FieldChecks, trace: seq<Option<Ledger>>, i: nat, p: Reservation, j: nat,
                                     m: Manifest, reload: Reload)
    requires Run(c, trace) && Sound(c, trace[0]) && ReservedAt(c, trace, i, p) && i < j < |trace|
    requires p.attemptId == m.attemptId || p.key == m.key
    requires FirstLedger(reload) == trace[j]
    ensures !DurablePermits(c, m, reload)
  {
    RecordedStep(EntriesOf(trace[i]), LedgerEntry(p.attemptId, p.key, Reserved, p.at), m.attemptId, m.key);
    RecordedForever(c, trace, i + 1, j, m.workflowId, m.attemptId, m.key);
  }

  /** The approval behind a permitted call is spent: no request consumes it again. */
  lemma PermittedApprovalIsSpent(c: FieldChecks, m: Manifest, reload: Reload, q: ConsumeRequest)
    requires DurablePermits(c, m, reload)
    ensures exists e :: e in reload.entries && e.evidence.ApprovalRecord? && e.evidence.approval.id == m.approvalRef
                        && e.evidence.approval.consumedBy == Some(m.attemptId)
                        && Consume(c, e.evidence.approval, q).None?
  {
  }

  /** From issue to call: a manifest bound to an approval that was issued and consumed
      passes the check exactly when it is valid and ready and the time of consumption
      passes the payload scan. */
  lemma IssuedConsumedPermitted(env: Environment, q: IssueRequest, audit: Text, at: Stamp, m: Manifest)
    requires IssueSpec(env, q).Some?
    requires Consume(env.checks, IssueSpec(env, q).value, Matching(env, q, audit, at)).Some?
    requires var x := Consume(env.checks, IssueSpec(env, q).value, Matching(env, q, audit, at)).value;
      m.workflowId == x.workflowId && ApprovalBound(m, x)
    ensures var x := Consume(env.checks, IssueSpec(env, q).value, Matching(env, q, audit, at)).value;
      BasePermits(env.checks, m, Some(x))
      <==> ValidManifest(env.checks, m) && ReadyState(m) && env.checks.clean(at.text)
  {
    var request := Matching(env, q, audit, at);
    ConsumedIsAccepted(env.checks, IssueSpec(env, q).value, request);
    assert ApprovalValid(env.checks, m, Some(Consume(env.checks, IssueSpec(env, q).value, request).value))
      <==> env.checks.clean(at.text);
  }

  /** The pre-call check looks neither at the action an approval was given for nor at its
      revocation; promotion does. A permitted call is accepted for promotion exactly when
      both are in order. */
  lemma PermittedAcceptedIff(c: FieldChecks, m: Manifest, a: Approval, action: Action)
    requires BasePermits(c, m, Some(a))
    ensures AcceptedForPromotion(c, a, m.workflowId, m.attemptId, action) <==> a.action == action && !a.revoked
  {
  }

  /** In itself the check passes any action, and a revoked approval: whatever it permits,
      it permits with the approval revoked and its action exchanged. */
  lemma PermittedRevokedAndForAnyAction(c: FieldChecks, m: Manifest, a: Approval, action: Action)
    requires BasePermits(c, m, Some(a))
    ensures BasePermits(c, m, Some(a.(revoked := true, action := action)))
    ensures !AcceptedForPromotion(c, a.(revoked := true, action := action), m.workflowId, m.attemptId, action)
  {
    assert ApprovalValid(c, m, Some(a)) && ApprovalBound(m, a);
    assert ApprovalValid(c, m, Some(a.(revoked := true, action := action)));
  }

  /** What ties the action down is the binding hash: a manifest whose hash was computed for
      an action is permitted with an issued and consumed approval only if the approval was
      issued for that action. */
  lemma ComputedBindingFixesAction(env: Environment, q: IssueRequest, audit: Text, at: Stamp, m: Manifest,
                                   action: Action)
    requires IssueSpec(env, q).Some? && PlainRequest(q)
    requires Plain(m.model) && Plain(m.workflowId) && Plain(m.attemptId) && Plain(m.profileRef)
    requires forall t, u :: env.hash(t) == env.hash(u) ==> t == u
    requires Consume(env.checks, IssueSpec(env, q).value, Matching(env, q, audit, at)).Some?
    requires m.bindingHash == env.hash(Material(BindingOf(m.model, action, m.workflowId, m.attemptId, m.profileRef)))
    requires BasePermits(env.checks, m, Consume(env.checks, IssueSpec(env, q).value, Matching(env, q, audit, at)))
    ensures q.action == action
  {
    ActionTextInjective(q.action, action);
    ActionTextInjective(action, q.action);
    MaterialInjective(BindingOf(q.model, q.action, q.workflowId, q.attemptId, q.profileRef),
                      BindingOf(m.model, action, m.workflowId, m.attemptId, m.profileRef));
  }
}
