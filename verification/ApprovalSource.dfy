/** The one-shot production approval: its validator, how it is issued against a bundle
    of reloaded evidence, and how it is consumed. The second half follows an approval
    through its life and through a race of contenders for it. */
module ApprovalSource {
  import opened Collections
  import opened Texts
  import opened Checks
  import opened EvidenceBundle

  datatype Action =
    | ManagedDispatchBeta | ActiveProfileMutation | ExternalWrite | LaneLaunch | ReviewerFanout | FallbackReselection

  datatype ApprovalMethod = TypedPhrase | SignedIntent

  datatype IssuerBoundary = ExternalUserConfirmation | ExternalSignedIntent

  datatype Approval = Approval(
    id: Text, workflowId: Text, attemptId: Text, action: Action, boundary: IssuerBoundary, means: ApprovalMethod,
    actorRef: Text, profileRef: Text, model: Text, bindingHash: Text, bundleHash: Text, guardRef: Text,
    issuanceAudit: Text, nonceRef: Text, issuedAt: Stamp, expiresAt: Stamp, revoked: bool,
    consumedAt: Option<Stamp>, consumedBy: Option<Text>, consumptionAudit: Option<Text>)

  // ---- Validation ------------------------------------------------------------

  predicate MethodMatchesBoundary(means: ApprovalMethod, boundary: IssuerBoundary)
  {
    means.TypedPhrase? <==> boundary.ExternalUserConfirmation?
  }

  /** The texts the payload scan looks into: all but the fields holding valid ids. */
  predicate ScannedTexts(c: FieldChecks, a: Approval)
  {
    && c.clean(a.bindingHash) && c.clean(a.bundleHash) && c.clean(a.issuedAt.text) && c.clean(a.expiresAt.text)
    && (a.consumedAt.Some? ==> c.clean(a.consumedAt.value.text))
  }

  predicate ValidRefs(c: FieldChecks, a: Approval)
  {
    && c.opaqueId(a.id) && c.opaqueId(a.workflowId) && c.opaqueId(a.attemptId) && c.opaqueId(a.actorRef)
    && c.opaqueId(a.profileRef) && c.model(a.model) && c.hashRef(a.bindingHash) && c.hashRef(a.bundleHash)
    && c.opaqueId(a.guardRef) && c.opaqueId(a.issuanceAudit) && c.opaqueId(a.nonceRef)
  }

  /** The consumption fields come together, name the same attempt and another audit
      than the issuance did, and lie after the issue time. */
  predicate ValidConsumption(c: FieldChecks, a: Approval)
  {
    && (a.consumedAt.Some? <==> a.consumedBy.Some?) && (a.consumedAt.Some? <==> a.consumptionAudit.Some?)
    && (a.consumedAt.Some? ==>
          && Parses(a.consumedAt.value)
          && (Parses(a.issuedAt) ==> a.consumedAt.value.ms.value > a.issuedAt.ms.value))
    && (a.consumedBy.Some? ==> c.opaqueId(a.consumedBy.value) && a.consumedBy.value == a.attemptId)
    && (a.consumptionAudit.Some? ==>
          c.opaqueId(a.consumptionAudit.value) && a.consumptionAudit.value != a.issuanceAudit)
  }

  predicate ValidApproval(c: FieldChecks, a: Approval, workflowId: Text)
  {
    && ValidRefs(c, a) && a.workflowId == workflowId && MethodMatchesBoundary(a.means, a.boundary)
    && Parses(a.issuedAt) && Parses(a.expiresAt) && a.expiresAt.ms.value > a.issuedAt.ms.value
    && ValidConsumption(c, a) && ScannedTexts(c, a)
  }

  // ---- Consumption -----------------------------------------------------------

  datatype ConsumeRequest = ConsumeRequest(
    workflowId: Text, attemptId: Text, action: Action, actorRef: Text, profileRef: Text, model: Text,
    bindingHash: Text, bundleHash: Text, guardRef: Text, audit: Text, at: Stamp)

  predicate ValidRequest(c: FieldChecks, q: ConsumeRequest)
  {
    && c.opaqueId(q.workflowId) && c.opaqueId(q.attemptId) && c.opaqueId(q.actorRef) && c.opaqueId(q.profileRef)
    && c.model(q.model) && c.hashRef(q.bindingHash) && c.hashRef(q.bundleHash) && c.opaqueId(q.guardRef)
    && c.opaqueId(q.audit) && Parses(q.at)
  }

  predicate BindingMatches(a: Approval, q: ConsumeRequest)
  {
    && a.attemptId == q.attemptId && a.action == q.action && a.actorRef == q.actorRef && a.profileRef == q.profileRef
    && a.model == q.model && a.bindingHash == q.bindingHash && a.bundleHash == q.bundleHash && a.guardRef == q.guardRef
  }

  function Consume(c: FieldChecks, a: Approval, q: ConsumeRequest): Option<Approval>
  {
    if && ValidApproval(c, a, q.workflowId) && ValidRequest(c, q) && a.consumedAt.None? && !a.revoked
       && BindingMatches(a, q)
       && (Parses(q.at) && Parses(a.issuedAt) ==> q.at.ms.value > a.issuedAt.ms.value)
       && q.audit != a.issuanceAudit
       && (Parses(q.at) && Parses(a.expiresAt) ==> q.at.ms.value < a.expiresAt.ms.value)
    then Some(a.(consumedAt := Some(q.at), consumedBy := Some(q.attemptId), consumptionAudit := Some(q.audit)))
    else None
  }

  // ---- Issue -----------------------------------------------------------------

  const MAX_TTL_MS := 1_800_000
  const CLOCK_SKEW_MS := 120_000

  /** What issuing takes from outside: the field checks, the record digest and the hash
      of the bundle and binding texts, the trimmed length of a phrase, and the ISO text
      of an instant. */
  datatype Environment = Environment(
    checks: FieldChecks, digest: Text -> Text, hash: Text -> Text, trimmedLength: Text -> nat, iso: int -> Text)

  /** `ttlMs` is `None` when it is not a finite number. */
  datatype IssueRequest = IssueRequest(
    workflowId: Text, attemptId: Text, action: Action, actorRef: Text, profileRef: Text, model: Text,
    entries: seq<Entry>, required: seq<Text>, means: ApprovalMethod, boundary: IssuerBoundary,
    expectedPhrase: Text, providedPhrase: Text, guardRef: Text, issuanceAudit: Text, nonceRef: Text,
    issuedAt: Stamp, ttlMs: Option<real>, now: Option<Stamp>)

  function ActionText(action: Action): Text
  {
    match action
    case ManagedDispatchBeta => Ascii("managed_dispatch_beta")
    case ActiveProfileMutation => Ascii("active_profile_mutation")
    case ExternalWrite => Ascii("external_write")
    case LaneLaunch => Ascii("lane_launch")
    case ReviewerFanout => Ascii("reviewer_fanout")
    case FallbackReselection => Ascii("fallback_reselection")
  }

  function BindingOf(model: Text, action: Action, workflowId: Text, attemptId: Text, profileRef: Text): Binding
  {
    Binding(model, ActionText(action), workflowId, attemptId, profileRef)
  }

  /** A time value keeps whole milliseconds, dropping the fraction toward zero. */
  function TimeClip(x: real): int
  {
    if x >= 0.0 then x.Floor else -((-x).Floor)
  }

  function ApprovalId(attemptId: Text, nonceRef: Text): Text
  {
    var full := Ascii("approval-") + attemptId + Ascii("-") + nonceRef;
    if |full| > 120 then full[..120] else full
  }

  /** The record that issuing would produce. */
  function Issued(env: Environment, q: IssueRequest): Approval
    requires Parses(q.issuedAt) && q.ttlMs.Some?
  {
    var expires := TimeClip(q.issuedAt.ms.value as real + q.ttlMs.value);
    Approval(ApprovalId(q.attemptId, q.nonceRef), q.workflowId, q.attemptId, q.action, q.boundary, q.means,
             q.actorRef, q.profileRef, q.model,
             BindingHash(env, q), BundleHash(env, q), q.guardRef, q.issuanceAudit, q.nonceRef,
             q.issuedAt, Stamp(env.iso(expires), Some(expires)), false, None, None, None)
  }

  predicate ValidTtl(ttlMs: Option<real>)
  {
    ttlMs.Some? && 0.0 < ttlMs.value <= MAX_TTL_MS as real
  }

  predicate TimelyIssue(q: IssueRequest)
  {
    && Parses(q.issuedAt)
    && (q.now.Some? ==>
          && Parses(q.now.value)
          && -CLOCK_SKEW_MS <= q.now.value.ms.value - q.issuedAt.ms.value <= CLOCK_SKEW_MS)
  }

  predicate ConfirmedPhrase(env: Environment, q: IssueRequest)
  {
    && MethodMatchesBoundary(q.means, q.boundary)
    && env.trimmedLength(q.expectedPhrase) >= 8 && q.providedPhrase == q.expectedPhrase
  }

  predicate ValidIssueIds(c: FieldChecks, q: IssueRequest)
  {
    && c.opaqueId(q.workflowId) && c.opaqueId(q.attemptId) && c.opaqueId(q.actorRef) && c.opaqueId(q.profileRef)
    && c.model(q.model) && c.opaqueId(q.guardRef) && c.opaqueId(q.issuanceAudit) && c.opaqueId(q.nonceRef)
  }

  ghost predicate EvidencePresent(entries: seq<Entry>, required: seq<Text>)
  {
    && entries != [] && required != []
    && forall cls :: cls in required ==> exists e :: e in entries && e.cls == cls
  }

  function BindingHash(env: Environment, q: IssueRequest): Text
  {
    env.hash(Material(BindingOf(q.model, q.action, q.workflowId, q.attemptId, q.profileRef)))
  }

  function BundleHash(env: Environment, q: IssueRequest): Text
  {
    env.hash(Preimage(env.digest, q.entries))
  }

  /** The window reaches a later whole millisecond. Instants are cut toward zero, so before
      the epoch any lifetime does. */
  predicate WindowOpens(q: IssueRequest)
    requires Parses(q.issuedAt) && q.ttlMs.Some?
  {
    q.ttlMs.value >= 1.0 || q.issuedAt.ms.value < 0
  }

  /** What the validator still wants of the record, told in terms of the request: an open
      window, a derived id and hashes of the right form, and clean texts. */
  predicate RecordAcceptable(env: Environment, q: IssueRequest)
    requires Parses(q.issuedAt) && q.ttlMs.Some?
  {
    && WindowOpens(q) && env.checks.opaqueId(ApprovalId(q.attemptId, q.nonceRef))
    && env.checks.hashRef(BindingHash(env, q)) && env.checks.hashRef(BundleHash(env, q))
    && env.checks.clean(BindingHash(env, q)) && env.checks.clean(BundleHash(env, q))
    && env.checks.clean(q.issuedAt.text)
    && env.checks.clean(env.iso(TimeClip(q.issuedAt.ms.value as real + q.ttlMs.value)))
  }

  /** An approval is issued exactly for a confirmed, timely request whose evidence holds
      every required class and whose record is acceptable. */
  ghost function IssueSpec(env: Environment, q: IssueRequest): Option<Approval>
  {
    if && ValidIssueIds(env.checks, q) && ConfirmedPhrase(env, q) && ValidTtl(q.ttlMs) && TimelyIssue(q)
       && EvidencePresent(q.entries, q.required) && RecordAcceptable(env, q)
    then Some(Issued(env, q))
    else None
  }

  /** The window is non-empty exactly for a lifetime of a whole millisecond or an issue
      before the epoch. */
  lemma WindowNonEmptyIff(issued: int, ttlMs: real)
    requires 0.0 < ttlMs
    ensures TimeClip(issued as real + ttlMs) > issued <==> ttlMs >= 1.0 || issued < 0
  {
    var x := issued as real + ttlMs;
    assert x >= 0.0 ==> x.Floor as real <= x < x.Floor as real + 1.0;
    assert x < 0.0 ==> (-x).Floor as real <= -x < (-x).Floor as real + 1.0;
  }

  /** Past the guards of the request the record passes its validator exactly when it is
      acceptable. */
  lemma IssuedValidIff(env: Environment, q: IssueRequest)
    requires ValidIssueIds(env.checks, q) && ConfirmedPhrase(env, q) && ValidTtl(q.ttlMs) && TimelyIssue(q)
    ensures ValidApproval(env.checks, Issued(env, q), q.workflowId) <==> RecordAcceptable(env, q)
  {
    WindowNonEmptyIff(q.issuedAt.ms.value, q.ttlMs.value);
  }

  method Issue(env: Environment, q: IssueRequest) returns (r: Option<Approval>)
    ensures r == IssueSpec(env, q)
    ensures r.Some? ==> q.providedPhrase == q.expectedPhrase && env.trimmedLength(q.expectedPhrase) >= 8
  {
    var ok := ValidIssueIds(env.checks, q) && ConfirmedPhrase(env, q) && ValidTtl(q.ttlMs) && TimelyIssue(q)
              && |q.entries| > 0 && |q.required| > 0;
    var present := set e | e in q.entries :: e.cls;
    var missing := false;
    for i := 0 to |q.required|
      invariant missing <==> exists j :: 0 <= j < i && q.required[j] !in present
    {
      if q.required[i] !in present {
        missing := true;
      }
    }
    PresentMeans(q.entries, q.required, present);
    r := None;
    if ok && !missing {
      IssuedValidIff(env, q);
      var approval := Issued(env, q);
      if ValidApproval(env.checks, approval, q.workflowId) {
        r := Some(approval);
      }
    }
  }

  lemma PresentMeans(entries: seq<Entry>, required: seq<Text>, present: set<Text>)
    requires present == set e | e in entries :: e.cls
    ensures (exists j :: 0 <= j < |required| && required[j] !in present)
       <==> !(forall cls :: cls in required ==> exists e :: e in entries && e.cls == cls)
  {
    if j :| 0 <= j < |required| && required[j] !in present {
      assert required[j] in required;
    }
  }

  // ---- What the validator looks at -------------------------------------------

  /** Every ref of an approval passes its own check. */
  lemma ApprovalRefsDecide(c: FieldChecks, a: Approval, t: Text)
    requires ValidApproval(c, a, a.workflowId) && a.consumedAt.None?
    ensures ValidApproval(c, a.(id := t), a.workflowId) <==> c.opaqueId(t)
    ensures ValidApproval(c, a.(attemptId := t), a.workflowId) <==> c.opaqueId(t)
    ensures ValidApproval(c, a.(actorRef := t), a.workflowId) <==> c.opaqueId(t)
    ensures ValidApproval(c, a.(profileRef := t), a.workflowId) <==> c.opaqueId(t)
    ensures ValidApproval(c, a.(guardRef := t), a.workflowId) <==> c.opaqueId(t)
    ensures ValidApproval(c, a.(issuanceAudit := t), a.workflowId) <==> c.opaqueId(t)
    ensures ValidApproval(c, a.(nonceRef := t), a.workflowId) <==> c.opaqueId(t)
    ensures ValidApproval(c, a.(model := t), a.workflowId) <==> c.model(t)
    ensures ValidApproval(c, a.(bindingHash := t), a.workflowId) <==> c.hashRef(t) && c.clean(t)
    ensures ValidApproval(c, a.(bundleHash := t), a.workflowId) <==> c.hashRef(t) && c.clean(t)
  {
  }

  /** Means and boundary pair up, the workflow is the one asked for, and the window is open
      and of readable, clean instants. */
  lemma ApprovalShapeDecides(c: FieldChecks, a: Approval, means: ApprovalMethod, boundary: IssuerBoundary,
                             issuedAt: Stamp, expiresAt: Stamp, workflowId: Text)
    requires ValidApproval(c, a, a.workflowId) && a.consumedAt.None?
    ensures ValidApproval(c, a.(means := means, boundary := boundary), a.workflowId)
       <==> (means, boundary) in {(TypedPhrase, ExternalUserConfirmation), (SignedIntent, ExternalSignedIntent)}
    ensures ValidApproval(c, a.(issuedAt := issuedAt, expiresAt := expiresAt), a.workflowId) <==>
      && issuedAt.ms.Some? && expiresAt.ms.Some? && issuedAt.ms.value < expiresAt.ms.value
      && c.clean(issuedAt.text) && c.clean(expiresAt.text)
    ensures ValidApproval(c, a, workflowId) <==> workflowId == a.workflowId
  {
  }

  /** The three consumption fields come together or not at all; given, they name the bound
      attempt, an audit other than that of the issue, and a later, clean instant. */
  lemma ConsumptionDecides(c: FieldChecks, a: Approval, at: Option<Stamp>, attempt: Option<Text>, audit: Option<Text>)
    requires ValidApproval(c, a, a.workflowId) && a.consumedAt.None?
    ensures ValidApproval(c, a.(consumedAt := at, consumedBy := attempt, consumptionAudit := audit), a.workflowId) <==>
      || (at == None && attempt == None && audit == None)
      || (&& at.Some? && attempt == Some(a.attemptId) && audit.Some?
          && at.value.ms.Some? && at.value.ms.value > a.issuedAt.ms.value && c.clean(at.value.text)
          && c.opaqueId(audit.value) && audit.value != a.issuanceAudit)
  {
  }

  /** The derived id is cut to 120 units, and tells attempt and nonce if it is not cut. */
  lemma ApprovalIdMeans(attemptId: Text, nonceRef: Text)
    ensures var full := Ascii("approval-") + attemptId + Ascii("-") + nonceRef;
      && |ApprovalId(attemptId, nonceRef)| <= 120 && ApprovalId(attemptId, nonceRef) <= full
      && (|attemptId| + |nonceRef| <= 110 ==> ApprovalId(attemptId, nonceRef) == full)
  {
  }

  // ---- What an issue hangs on ------------------------------------------------

  /** Of all phrases a person could type, exactly the expected one gets the approval. */
  lemma PhraseDecides(env: Environment, q: IssueRequest, phrase: Text)
    requires IssueSpec(env, q).Some?
    ensures IssueSpec(env, q.(providedPhrase := phrase)).Some? <==> phrase == q.expectedPhrase
    ensures env.trimmedLength(q.expectedPhrase) >= 8
  {
  }

  /** A trivial phrase gets none, even when it is repeated exactly. */
  lemma TrivialPhraseRefused(env: Environment, q: IssueRequest, phrase: Text)
    requires IssueSpec(env, q).Some?
    ensures IssueSpec(env, q.(expectedPhrase := phrase, providedPhrase := phrase)).Some?
       <==> env.trimmedLength(phrase) >= 8
  {
  }

  /** A typed phrase goes with confirmation by an external user, a signed intent with the
      external signed boundary; no other pair is issued. */
  lemma BoundaryDecides(env: Environment, q: IssueRequest, means: ApprovalMethod, boundary: IssuerBoundary)
    requires IssueSpec(env, q).Some?
    ensures IssueSpec(env, q.(means := means, boundary := boundary)).Some?
       <==> (means, boundary) in {(TypedPhrase, ExternalUserConfirmation), (SignedIntent, ExternalSignedIntent)}
  {
  }

  /** A request that differs in the clock alone is as good in everything but its time. */
  lemma ClockAlone(env: Environment, q: IssueRequest, now: Option<Stamp>)
    requires IssueSpec(env, q).Some?
    ensures IssueSpec(env, q.(now := now)).Some? <==> TimelyIssue(q.(now := now))
  {
    var r := q.(now := now);
    assert BindingHash(env, r) == BindingHash(env, q) && BundleHash(env, r) == BundleHash(env, q);
    assert RecordAcceptable(env, r) && ConfirmedPhrase(env, r) && EvidencePresent(r.entries, r.required);
  }

  /** The issue time may lie two minutes from the clock either way, and no more. */
  lemma ClockDecides(env: Environment, q: IssueRequest, now: Stamp)
    requires IssueSpec(env, q).Some?
    ensures IssueSpec(env, q.(now := Some(now))).Some? <==>
      && now.ms.Some?
      && q.issuedAt.ms.value - 120_000 <= now.ms.value <= q.issuedAt.ms.value + 120_000
  {
    ClockAlone(env, q, Some(now));
  }

  /** With expiry texts that pass the scan, exactly the lifetimes up to thirty minutes that
      open a window are issued. */
  lemma LifetimeDecides(env: Environment, q: IssueRequest, ttlMs: real)
    requires IssueSpec(env, q).Some? && forall ms :: env.checks.clean(env.iso(ms))
    ensures IssueSpec(env, q.(ttlMs := Some(ttlMs))).Some? <==>
      0.0 < ttlMs <= 1_800_000.0 && (ttlMs >= 1.0 || q.issuedAt.ms.value < 0)
  {
  }

  ghost predicate HasClass(entries: seq<Entry>, cls: Text)
  {
    exists e :: e in entries && e.cls == cls
  }

  /** Exactly evidence with an entry of every class the gate asks for is enough. */
  lemma EvidenceDecides(env: Environment, q: IssueRequest, required: seq<Text>)
    requires IssueSpec(env, q).Some?
    ensures IssueSpec(env, q.(required := required)).Some?
       <==> |required| > 0 && forall i :: 0 <= i < |required| ==> HasClass(q.entries, required[i])
  {
    var r := q.(required := required);
    assert RecordAcceptable(env, r) && q.entries != [];
    if EvidencePresent(q.entries, required) {
      forall i | 0 <= i < |required|
        ensures HasClass(q.entries, required[i])
      {
        assert required[i] in required;
      }
    }
    if forall i :: 0 <= i < |required| ==> HasClass(q.entries, required[i]) {
      forall cls | cls in required
        ensures exists e :: e in q.entries && e.cls == cls
      {
        var i :| 0 <= i < |required| && required[i] == cls;
        assert HasClass(q.entries, required[i]);
      }
    }
  }

  /** A request that is issued, so that none of this is said of nothing. */
  lemma SomeRequestIsIssued(e: Entry, at: int) returns (env: Environment, q: IssueRequest)
    ensures IssueSpec(env, q).Some?
    ensures forall ms :: env.checks.clean(env.iso(ms))
  {
    var yes := (_: Text) => true;
    var t := e.cls;
    env := Environment(FieldChecks(yes, yes, yes, yes, yes), x => x, x => x, _ => 8, _ => t);
    q := IssueRequest(t, t, ManagedDispatchBeta, t, t, t, [e], [t], TypedPhrase, ExternalUserConfirmation,
                      t, t, t, t, t, Stamp(t, Some(at)), Some(1.0), None);
    assert e in q.entries;
  }

  // ---- Life of one approval --------------------------------------------------

  /** The consume request that repeats the binding of an issue request. */
  function Matching(env: Environment, q: IssueRequest, audit: Text, at: Stamp): ConsumeRequest
  {
    ConsumeRequest(q.workflowId, q.attemptId, q.action, q.actorRef, q.profileRef, q.model,
                   BindingHash(env, q), BundleHash(env, q), q.guardRef, audit, at)
  }

  lemma ClipBounds(issued: int, ttlMs: real)
    requires 0.0 < ttlMs <= MAX_TTL_MS as real
    ensures TimeClip(issued as real + ttlMs) <= issued + MAX_TTL_MS
  {
  }

  /** An issued approval, consumed with its own binding, goes through exactly strictly
      inside its window and under a fresh audit ref; the window is at most thirty minutes. */
  lemma ConsumedInsideWindow(env: Environment, q: IssueRequest, audit: Text, at: Stamp)
    requires IssueSpec(env, q).Some?
    ensures var a := IssueSpec(env, q).value;
      && (Consume(env.checks, a, Matching(env, q, audit, at)).Some?
          <==> && Parses(at) && a.issuedAt.ms.value < at.ms.value < a.expiresAt.ms.value
               && env.checks.opaqueId(audit) && audit != a.issuanceAudit)
      && a.issuedAt.ms.value < a.expiresAt.ms.value <= a.issuedAt.ms.value + MAX_TTL_MS
  {
    ClipBounds(q.issuedAt.ms.value, q.ttlMs.value);
    IssuedValidIff(env, q);
  }

  /** A lifetime that does not reach the next whole millisecond is never issued, though
      the lifetime check itself accepts it. */
  lemma SubMillisecondNeverIssued(env: Environment, q: IssueRequest)
    requires Parses(q.issuedAt) && q.issuedAt.ms.value >= 0 && q.ttlMs.Some? && 0.0 < q.ttlMs.value < 1.0
    ensures ValidTtl(q.ttlMs) && IssueSpec(env, q).None?
  {
  }

  /** What promotion asks of the approval it is handed. */
  predicate AcceptedForPromotion(c: FieldChecks, a: Approval, workflowId: Text, attemptId: Text, action: Action)
  {
    && ValidApproval(c, a, workflowId) && a.action == action && a.workflowId == workflowId && a.attemptId == attemptId
    && a.consumedAt.Some? && a.consumedBy == Some(attemptId) && a.consumptionAudit.Some? && !a.revoked
  }

  /** A consumed approval passes its validator and the promotion check exactly when the
      text of its consumption time passes the payload scan, which consuming does not run. */
  lemma ConsumedIsAccepted(c: FieldChecks, a: Approval, q: ConsumeRequest)
    requires Consume(c, a, q).Some?
    ensures var x := Consume(c, a, q).value;
      && (ValidApproval(c, x, q.workflowId) <==> c.clean(q.at.text))
      && (AcceptedForPromotion(c, x, q.workflowId, q.attemptId, q.action) <==> c.clean(q.at.text))
      && x.issuedAt.ms.value < x.consumedAt.value.ms.value < x.expiresAt.ms.value
  {
  }

  /** An approval can be consumed once: whatever the second request is. */
  lemma NeverConsumedTwice(c: FieldChecks, a: Approval, q: ConsumeRequest, again: ConsumeRequest)
    requires Consume(c, a, q).Some?
    ensures Consume(c, Consume(c, a, q).value, again).None?
  {
  }

  /** Texts that can stand in a binding or an evidence line. */
  ghost predicate PlainRequest(q: IssueRequest)
  {
    && Plain(q.model) && Plain(q.workflowId) && Plain(q.attemptId) && Plain(q.profileRef)
    && forall e :: e in q.entries ==> PlainEntry(e)
  }

  lemma ActionTextInjective(a: Action, b: Action)
    ensures ActionText(a) == ActionText(b) <==> a == b
    ensures SEPARATOR !in ActionText(a)
  {
  }

  /** No replay across bindings: an approval issued for `q` is consumed by a request
      computed from `p` only if `p` has the same model, action, workflow, attempt,
      profile, actor and guard, and the very same evidence up to arrangement. */
  lemma BoundToIssue(env: Environment, q: IssueRequest, p: IssueRequest, audit: Text, at: Stamp)
    requires IssueSpec(env, q).Some? && PlainRequest(q) && PlainRequest(p) && Faithful(env.digest)
    requires forall t, u :: env.hash(t) == env.hash(u) ==> t == u
    requires Consume(env.checks, IssueSpec(env, q).value, Matching(env, p, audit, at)).Some?
    ensures p.model == q.model && p.action == q.action && p.workflowId == q.workflowId && p.attemptId == q.attemptId
    ensures p.profileRef == q.profileRef && p.actorRef == q.actorRef && p.guardRef == q.guardRef
    ensures multiset(Map(Canonical, p.entries)) == multiset(Map(Canonical, q.entries))
  {
    BundleIdentity(env.digest, p.entries, q.entries);
  }

  /** The binding hash alone already fixes the five bound fields. */
  lemma BindingHashDetermines(env: Environment, q: IssueRequest, p: IssueRequest)
    requires PlainRequest(q) && PlainRequest(p)
    requires forall t, u :: env.hash(t) == env.hash(u) ==> t == u
    requires Parses(q.issuedAt) && q.ttlMs.Some? && Parses(p.issuedAt) && p.ttlMs.Some?
    ensures Issued(env, q).bindingHash == Issued(env, p).bindingHash
       <==> && q.model == p.model && q.action == p.action && q.workflowId == p.workflowId
            && q.attemptId == p.attemptId && q.profileRef == p.profileRef
  {
    ActionTextInjective(q.action, p.action);
    ActionTextInjective(p.action, q.action);
    var b, d := BindingOf(q.model, q.action, q.workflowId, q.attemptId, q.profileRef),
                BindingOf(p.model, p.action, p.workflowId, p.attemptId, p.profileRef);
    MaterialInjective(b, d);
  }

  // ---- Contenders for one approval -------------------------------------------

  /** The stored approval, what each contender last read, and who has won so far. */
  datatype Race = Race(cell: Approval, held: map<nat, Approval>, winners: seq<nat>)

  ghost predicate ReadStep(before: Race, after: Race, i: nat)
  {
    after == before.(held := before.held[i := before.cell])
  }

  /** Compare-and-swap: the consumed record replaces the stored one only if the stored
      one is still what the contender read. */
  ghost predicate SwapStep(c: FieldChecks, before: Race, after: Race, i: nat, q: ConsumeRequest)
  {
    && i in before.held && Consume(c, before.held[i], q).Some?
    && after == if before.cell == before.held[i]
                then before.(cell := Consume(c, before.held[i], q).value, winners := before.winners + [i])
                else before
  }

  ghost predicate RaceStep(c: FieldChecks, before: Race, after: Race)
  {
    || (exists i :: ReadStep(before, after, i))
    || (exists i, q :: SwapStep(c, before, after, i, q))
  }

  ghost predicate RaceRun(c: FieldChecks, trace: seq<Race>)
  {
    && trace != [] && trace[0].winners == [] && trace[0].held == map[]
    && forall i :: 0 <= i < |trace| - 1 ==> RaceStep(c, trace[i], trace[i + 1])
  }

  /** However the contenders interleave, at most one wins, and once one has won the
      stored approval is consumed and stays as the winner wrote it. */
  lemma {:induction false} OneWinner(c: FieldChecks, trace: seq<Race>, i: nat, j: nat)
    requires RaceRun(c, trace) && i <= j < |trace|
    ensures |trace[j].winners| <= 1
    ensures trace[i].winners != [] ==> trace[j].cell == trace[i].cell && trace[j].winners == trace[i].winners
    ensures trace[j].winners != [] ==> trace[j].cell.consumedAt.Some?
    decreases j
  {
    if j > 0 {
      OneWinner(c, trace, if i < j then i else j - 1, j - 1);
      RaceKeeps(c, trace[j - 1], trace[j]);
    }
  }

  lemma RaceKeeps(c: FieldChecks, before: Race, after: Race)
    requires RaceStep(c, before, after) && |before.winners| <= 1
    requires before.winners != [] ==> before.cell.consumedAt.Some?
    ensures |after.winners| <= 1
    ensures after.winners != [] ==> after.cell.consumedAt.Some?
    ensures before.winners != [] ==> after.cell == before.cell && after.winners == before.winners
  {
  }

  /** Storing without looking: the consumed record replaces whatever is stored. */
  ghost predicate BlindStep(c: FieldChecks, before: Race, after: Race, i: nat, q: ConsumeRequest)
  {
    && i in before.held && Consume(c, before.held[i], q).Some?
    && after == before.(cell := Consume(c, before.held[i], q).value, winners := before.winners + [i])
  }

  ghost predicate BlindRun(c: FieldChecks, trace: seq<Race>)
  {
    && trace != [] && trace[0].winners == [] && trace[0].held == map[]
    && forall i :: 0 <= i < |trace| - 1 ==> BlindRaceStep(c, trace[i], trace[i + 1])
  }

  ghost predicate BlindRaceStep(c: FieldChecks, before: Race, after: Race)
  {
    || (exists i :: ReadStep(before, after, i))
    || (exists i, q :: BlindStep(c, before, after, i, q))
  }

  /** Without the comparison the guarantee is gone, for every approval that can be consumed
      at all: two contenders read, both write, both win, and the record of the first is
      overwritten by that of the second. */
  lemma BlindWritesBothSucceed(c: FieldChecks, a: Approval, p: ConsumeRequest, q: ConsumeRequest)
    returns (trace: seq<Race>)
    requires Consume(c, a, p).Some? && Consume(c, a, q).Some?
    ensures BlindRun(c, trace) && trace[0].cell == a && |trace| == 5
    ensures trace[3].winners == [0] && trace[3].cell == Consume(c, a, p).value
    ensures trace[4].winners == [0, 1] && trace[4].cell == Consume(c, a, q).value
  {
    var start := Race(a, map[], []);
    var one := start.(held := start.held[0 := a]);
    var both := one.(held := one.held[1 := a]);
    var first := both.(cell := Consume(c, a, p).value, winners := both.winners + [0]);
    var second := first.(cell := Consume(c, a, q).value, winners := first.winners + [1]);
    trace := [start, one, both, first, second];
    assert ReadStep(start, one, 0) && ReadStep(one, both, 1);
    assert BlindStep(c, both, first, 0, p) && BlindStep(c, first, second, 1, q);
    assert BlindRaceStep(c, start, one) && BlindRaceStep(c, one, both);
    assert BlindRaceStep(c, both, first) && BlindRaceStep(c, first, second);
  }

  ghost predicate EndsWithTwoWinners(c: FieldChecks, a: Approval, trace: seq<Race>)
  {
    BlindRun(c, trace) && trace[0].cell == a && |trace[|trace| - 1].winners| >= 2
  }

  /** So a blind race for `a` can end with two winners exactly when `a` can be consumed. */
  lemma BlindRaceIff(c: FieldChecks, a: Approval)
    ensures (exists trace :: EndsWithTwoWinners(c, a, trace)) <==> exists q :: Consume(c, a, q).Some?
  {
    if q :| Consume(c, a, q).Some? {
      var trace := BlindWritesBothSucceed(c, a, q, q);
      assert EndsWithTwoWinners(c, a, trace);
    }
    if trace :| EndsWithTwoWinners(c, a, trace) {
      BlindWinnerConsumed(c, trace, |trace| - 1);
    }
  }

  /** Nobody has won, and the stored and every read record is still `a`. */
  ghost predicate Untouched(a: Approval, r: Race)
  {
    r.winners == [] && r.cell == a && forall i :: i in r.held ==> r.held[i] == a
  }

  lemma BlindStepFrom(c: FieldChecks, a: Approval, before: Race, after: Race)
    requires BlindRaceStep(c, before, after) && Untouched(a, before)
    ensures Untouched(a, after) || exists q :: Consume(c, a, q).Some?
  {
    if i, q :| BlindStep(c, before, after, i, q) {
      assert Consume(c, a, q).Some?;
    }
  }

  /** Nobody wins a record that cannot be consumed. */
  lemma {:induction false} BlindWinnerConsumed(c: FieldChecks, trace: seq<Race>, k: nat)
    requires BlindRun(c, trace) && k < |trace|
    ensures Untouched(trace[0].cell, trace[k]) || exists q :: Consume(c, trace[0].cell, q).Some?
    decreases k
  {
    if k > 0 {
      BlindWinnerConsumed(c, trace, k - 1);
      if Untouched(trace[0].cell, trace[k - 1]) {
        BlindStepFrom(c, trace[0].cell, trace[k - 1], trace[k]);
      }
    }
  }
}
