/** Reloaded session evidence, as the pre-call check and the production gate see it. */
module SessionEvidence {
  import opened Collections
  import opened Texts
  import opened DispatchLedger
  import opened ApprovalSource

  /** A record of a reloaded class, with the fields the two gates read. `Marker` stands
      for the classes of which only the presence and the reference matter. */
  datatype Evidence =
    | ApprovalRecord(approval: Approval)
    | AuditRecord(workflow: Option<Text>, attempt: Option<Text>, preDispatchAuditRef: Option<Text>,
                  auditRef: Option<Text>, approvalRef: Option<Text>)
    | LedgerRecord(ledger: Ledger)
    | UsageRecord(snapshotId: Option<Text>, isFresh: bool, dispatchable: bool)
    | HealthRecord(snapshotId: Option<Text>, isFresh: bool, dispatchable: bool, healthy: bool, noFailure: bool)
    | RegateRecord(fullRegate: bool, newAttempt: Option<Text>, requiredRefs: seq<Text>)
    | Marker(kind: MarkerKind, ref: Option<Text>)

  datatype MarkerKind = UsageAuthority | RuntimeEcho | TelemetryCorrelation | OtherClass

  datatype ReloadEntry = ReloadEntry(id: Text, evidence: Evidence)

  datatype Reload = Reload(ok: bool, errors: seq<Text>, blocked: nat, entries: seq<ReloadEntry>)

  predicate IsLedger(e: ReloadEntry) { e.evidence.LedgerRecord? }

  /** `entries.find(p)`. */
  function First(p: ReloadEntry -> bool, entries: seq<ReloadEntry>): (r: Option<ReloadEntry>)
    ensures r.Some? ==> r.value in entries && p(r.value)
    ensures r.None? ==> forall e :: e in entries ==> !p(e)
  {
    if entries == [] then None
    else if p(entries[0]) then Some(entries[0])
    else First(p, entries[1..])
  }

  lemma {:induction false} FirstIs(p: ReloadEntry -> bool, entries: seq<ReloadEntry>, i: nat)
    requires i < |entries| && p(entries[i]) && forall j :: 0 <= j < i ==> !p(entries[j])
    ensures First(p, entries) == Some(entries[i])
    decreases i
  {
    if i > 0 {
      FirstIs(p, entries[1..], i - 1);
    }
  }

  /** Leaving out entries that `p` does not match does not change its first match. */
  lemma {:induction false} FirstFiltered(p: ReloadEntry -> bool, keep: ReloadEntry -> bool, entries: seq<ReloadEntry>)
    requires forall e :: p(e) ==> keep(e)
    ensures First(p, Filter(keep, entries)) == First(p, entries)
    decreases |entries|
  {
    if entries != [] {
      var e, rest := entries[0], entries[1..];
      FirstFiltered(p, keep, rest);
      FilterConcat(keep, [e], rest);
      assert entries == [e] + rest && [e][..0] == [];
      assert Filter(keep, [e]) == if keep(e) then [e] else [];
      assert [] + Filter(keep, rest) == Filter(keep, rest) == ([e] + Filter(keep, rest))[1..];
    }
  }

  /** `entries.some(p)`. */
  ghost predicate Any(p: ReloadEntry -> bool, entries: seq<ReloadEntry>)
  {
    exists i :: 0 <= i < |entries| && p(entries[i])
  }

  /** Whether some entry satisfies `p`, found by looking at each. */
  method Exists(p: ReloadEntry -> bool, entries: seq<ReloadEntry>) returns (found: bool)
    ensures found <==> Any(p, entries)
  {
    for i := 0 to |entries|
      invariant forall j :: 0 <= j < i ==> !p(entries[j])
    {
      if p(entries[i]) {
        return true;
      }
    }
    return false;
  }

  /** Every entry of `a` is also an entry of `b`. */
  ghost predicate Included(a: seq<ReloadEntry>, b: seq<ReloadEntry>)
  {
    forall e :: e in a ==> e in b
  }

  lemma AnyGrows(p: ReloadEntry -> bool, a: seq<ReloadEntry>, b: seq<ReloadEntry>)
    requires Included(a, b) && Any(p, a)
    ensures Any(p, b)
  {
    var i :| 0 <= i < |a| && p(a[i]);
    assert a[i] in b;
    var j :| 0 <= j < |b| && b[j] == a[i];
  }

  /** The position of the first match, before which nothing matches. */
  lemma {:induction false} FirstAt(p: ReloadEntry -> bool, entries: seq<ReloadEntry>) returns (i: nat)
    requires First(p, entries).Some?
    ensures i < |entries| && entries[i] == First(p, entries).value && p(entries[i])
    ensures forall j :: 0 <= j < i ==> !p(entries[j])
    decreases |entries|
  {
    if p(entries[0]) {
      i := 0;
    } else {
      var k := FirstAt(p, entries[1..]);
      i := k + 1;
      forall j | 0 <= j < i
        ensures !p(entries[j])
      {
        if j > 0 {
          assert entries[j] == entries[1..][j - 1];
        }
      }
    }
  }
}
