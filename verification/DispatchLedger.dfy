/** The dispatch idempotency ledger: a bounded list of (attempt, key) entries, its
    validator, the replay check, and the two operations that prepare a successor
    ledger. The second half follows the ledger over whole runs. */
module DispatchLedger {
  import opened Collections
  import opened Texts
  import opened Checks

  datatype EntryState = Reserved | SdkCallPermitted | DispatchCompleted | DispatchFailed | Quarantined

  datatype LedgerEntry = LedgerEntry(attemptId: Text, key: Text, state: EntryState, recordedAt: Stamp)

  datatype Ledger = Ledger(workflowId: Text, snapshotRef: Text, observedAt: Stamp, entries: seq<LedgerEntry>)

  const MAX_ENTRIES := 200

  // ---- Validation ------------------------------------------------------------

  predicate ValidEntry(c: FieldChecks, e: LedgerEntry)
  {
    c.opaqueId(e.attemptId) && c.opaqueId(e.key) && Parses(e.recordedAt) && c.clean(e.key) && c.clean(e.recordedAt.text)
  }

  ghost predicate Distinct(entries: seq<LedgerEntry>)
  {
    forall i, j :: 0 <= i < j < |entries| ==>
      entries[i].attemptId != entries[j].attemptId && entries[i].key != entries[j].key
  }

  predicate ValidHeader(c: FieldChecks, l: Ledger, workflowId: Text)
  {
    && c.opaqueId(l.workflowId) && l.workflowId == workflowId && c.opaqueId(l.snapshotRef)
    && Parses(l.observedAt) && c.clean(l.observedAt.text)
  }

  ghost predicate ValidLedger(c: FieldChecks, l: Ledger, workflowId: Text)
  {
    && ValidHeader(c, l, workflowId)
    && |l.entries| <= MAX_ENTRIES
    && (forall e :: e in l.entries ==> ValidEntry(c, e))
    && Distinct(l.entries)
  }

  /** The validator walks the entries with two "seen" sets. */
  method ValidateLedger(c: FieldChecks, l: Ledger, workflowId: Text) returns (ok: bool)
    ensures ok <==> ValidLedger(c, l, workflowId)
  {
    ok := ValidHeader(c, l, workflowId) && |l.entries| <= MAX_ENTRIES;
    var seenAttempts: set<Text>, seenKeys: set<Text> := {}, {};
    for i := 0 to |l.entries|
      invariant forall t :: t in seenAttempts <==> AttemptRecorded(l.entries[..i], t)
      invariant forall t :: t in seenKeys <==> KeyRecorded(l.entries[..i], t)
      invariant ok <==> && ValidHeader(c, l, workflowId) && |l.entries| <= MAX_ENTRIES
                        && (forall e :: e in l.entries[..i] ==> ValidEntry(c, e))
                        && Distinct(l.entries[..i])
    {
      var e := l.entries[i];
      ghost var front := l.entries[..i];
      assert l.entries[..i + 1] == front + [e];
      DistinctStep(front, e);
      forall t
        ensures AttemptRecorded(front + [e], t) <==> AttemptRecorded(front, t) || e.attemptId == t
        ensures KeyRecorded(front + [e], t) <==> KeyRecorded(front, t) || e.key == t
      {
        RecordedStep(front, e, t, t);
      }
      ok := ok && ValidEntry(c, e) && e.attemptId !in seenAttempts && e.key !in seenKeys;
      seenAttempts, seenKeys := seenAttempts + {e.attemptId}, seenKeys + {e.key};
    }
    assert l.entries[..|l.entries|] == l.entries;
  }

  lemma DistinctStep(entries: seq<LedgerEntry>, e: LedgerEntry)
    ensures Distinct(entries + [e])
       <==> Distinct(entries) && !AttemptRecorded(entries, e.attemptId) && !KeyRecorded(entries, e.key)
  {
    var after := entries + [e];
    assert after[|entries|] == e;
    assert forall i :: 0 <= i < |entries| ==> after[i] == entries[i];
  }

  // ---- Replay check ----------------------------------------------------------

  datatype ReplayLabel = SnapshotMissing | SnapshotInvalid | AttemptAlreadyRecorded | KeyReused

  ghost predicate AttemptRecorded(entries: seq<LedgerEntry>, attemptId: Text)
  {
    exists i :: 0 <= i < |entries| && entries[i].attemptId == attemptId
  }

  ghost predicate KeyRecorded(entries: seq<LedgerEntry>, key: Text)
  {
    exists i :: 0 <= i < |entries| && entries[i].key == key
  }

  predicate ValidIds(c: FieldChecks, workflowId: Text, attemptId: Text, key: Text)
  {
    c.opaqueId(workflowId) && c.opaqueId(attemptId) && c.opaqueId(key)
  }

  /** What "unique" means: readable ids, a valid ledger, and neither the attempt nor
      the key in it. */
  ghost predicate ReplaySafe(c: FieldChecks, workflowId: Text, attemptId: Text, key: Text, ledger: Option<Ledger>)
  {
    && ValidIds(c, workflowId, attemptId, key)
    && ledger.Some? && ValidLedger(c, ledger.value, workflowId)
    && !AttemptRecorded(ledger.value.entries, attemptId)
    && !KeyRecorded(ledger.value.entries, key)
  }

  /** When a label blocks the replay. */
  ghost predicate ReplayBlocks(c: FieldChecks, workflowId: Text, attemptId: Text, key: Text, ledger: Option<Ledger>,
                               l: ReplayLabel)
  {
    match l
    case SnapshotMissing => ledger.None?
    case SnapshotInvalid => ledger.Some? && !ValidLedger(c, ledger.value, workflowId)
    case AttemptAlreadyRecorded => ledger.Some? && AttemptRecorded(ledger.value.entries, attemptId)
    case KeyReused => ledger.Some? && KeyRecorded(ledger.value.entries, key)
  }

  lemma NoReplayLabelMeans(c: FieldChecks, workflowId: Text, attemptId: Text, key: Text, ledger: Option<Ledger>)
    ensures (&& (forall l :: !ReplayBlocks(c, workflowId, attemptId, key, ledger, l))
             && ValidIds(c, workflowId, attemptId, key))
       <==> ReplaySafe(c, workflowId, attemptId, key, ledger)
  {
    if forall l :: !ReplayBlocks(c, workflowId, attemptId, key, ledger, l) {
      assert !ReplayBlocks(c, workflowId, attemptId, key, ledger, SnapshotMissing);
      assert !ReplayBlocks(c, workflowId, attemptId, key, ledger, SnapshotInvalid);
      assert !ReplayBlocks(c, workflowId, attemptId, key, ledger, AttemptAlreadyRecorded);
      assert !ReplayBlocks(c, workflowId, attemptId, key, ledger, KeyReused);
    }
  }

  method EvaluateReplay(c: FieldChecks, workflowId: Text, attemptId: Text, key: Text, ledger: Option<Ledger>)
    returns (replaySafe: bool, labels: seq<ReplayLabel>)
    ensures replaySafe <==> ReplaySafe(c, workflowId, attemptId, key, ledger)
    ensures NoDup(labels) && forall l :: l in labels <==> ReplayBlocks(c, workflowId, attemptId, key, ledger, l)
  {
    var idsOk := ValidIds(c, workflowId, attemptId, key);
    var blocked: seq<ReplayLabel> := [];
    if ledger.None? {
      blocked := [SnapshotMissing];
    } else {
      var entries := ledger.value.entries;
      var valid := ValidateLedger(c, ledger.value, workflowId);
      if !valid {
        blocked := [SnapshotInvalid];
      }
      for i := 0 to |entries|
        invariant SnapshotMissing !in blocked
        invariant SnapshotInvalid in blocked <==> !valid
        invariant AttemptAlreadyRecorded in blocked <==> AttemptRecorded(entries[..i], attemptId)
        invariant KeyReused in blocked <==> KeyRecorded(entries[..i], key)
      {
        assert entries[..i + 1] == entries[..i] + [entries[i]];
        RecordedStep(entries[..i], entries[i], attemptId, key);
        if entries[i].attemptId == attemptId {
          blocked := blocked + [AttemptAlreadyRecorded];
        }
        if entries[i].key == key {
          blocked := blocked + [KeyReused];
        }
      }
      assert entries[..|entries|] == entries;
    }
    UniqueMembers(blocked);
    labels := Unique(blocked);
    replaySafe := idsOk && labels == [];
    assert forall l :: l in labels <==> ReplayBlocks(c, workflowId, attemptId, key, ledger, l);
    assert labels != [] ==> labels[0] in labels;
    assert labels == [] ==> forall l :: !ReplayBlocks(c, workflowId, attemptId, key, ledger, l);
    NoReplayLabelMeans(c, workflowId, attemptId, key, ledger);
  }

  lemma RecordedStep(entries: seq<LedgerEntry>, e: LedgerEntry, attemptId: Text, key: Text)
    ensures AttemptRecorded(entries + [e], attemptId)
       <==> AttemptRecorded(entries, attemptId) || e.attemptId == attemptId
    ensures KeyRecorded(entries + [e], key) <==> KeyRecorded(entries, key) || e.key == key
  {
    var after := entries + [e];
    assert after[|entries|] == e;
    if i :| 0 <= i < |entries| && entries[i].attemptId == attemptId {
      assert after[i].attemptId == attemptId;
    }
    if i :| 0 <= i < |entries| && entries[i].key == key {
      assert after[i].key == key;
    }
  }

  // ---- Reservation -----------------------------------------------------------

  function EmptyLedger(workflowId: Text, snapshotRef: Text, at: Stamp): Ledger
  {
    Ledger(workflowId, snapshotRef, at, [])
  }

  function EntriesOf(ledger: Option<Ledger>): seq<LedgerEntry>
  {
    if ledger.None? then [] else ledger.value.entries
  }

  /** A reservation request. */
  datatype Reservation = Reservation(workflowId: Text, attemptId: Text, key: Text, snapshotRef: Text, at: Stamp)

  /** A ledger is prepared only after the existing one and the candidate both pass
      the validator and the replay check finds nothing. */
  method PrepareReservation(c: FieldChecks, q: Reservation, existing: Option<Ledger>) returns (r: Option<Ledger>)
    ensures r == ReserveSpec(c, q, existing)
  {
    var ok := ValidIds(c, q.workflowId, q.attemptId, q.key) && c.opaqueId(q.snapshotRef) && Parses(q.at);
    if existing.Some? {
      var valid := ValidateLedger(c, existing.value, q.workflowId);
      ok := ok && valid;
    }
    var base := if existing.Some? then existing.value else EmptyLedger(q.workflowId, q.snapshotRef, q.at);
    var replaySafe, labels := EvaluateReplay(c, q.workflowId, q.attemptId, q.key, Some(base));
    r := None;
    if ok && replaySafe {
      var candidate := Ledger(q.workflowId, q.snapshotRef, q.at,
                              base.entries + [LedgerEntry(q.attemptId, q.key, Reserved, q.at)]);
      CandidateValid(c, q, base);
      var valid := ValidateLedger(c, candidate, q.workflowId);
      if valid {
        r := Some(candidate);
      }
    }
  }

  lemma CandidateValid(c: FieldChecks, q: Reservation, base: Ledger)
    requires ReplaySafe(c, q.workflowId, q.attemptId, q.key, Some(base)) && c.opaqueId(q.snapshotRef) && Parses(q.at)
    ensures ValidLedger(c, Ledger(q.workflowId, q.snapshotRef, q.at,
                                  base.entries + [LedgerEntry(q.attemptId, q.key, Reserved, q.at)]), q.workflowId)
       <==> |base.entries| < MAX_ENTRIES && c.clean(q.at.text) && c.clean(q.key)
  {
    var e := LedgerEntry(q.attemptId, q.key, Reserved, q.at);
    var entries := base.entries + [e];
    assert e in entries;
    assert forall x :: x in entries <==> x in base.entries || x == e;
    DistinctStep(base.entries, e);
  }

  /** The successor ledger of a reservation, told by its meaning: the ledger (or none)
      is valid, attempt and key are new, there is room, and the texts are acceptable. */
  ghost function ReserveSpec(c: FieldChecks, q: Reservation, existing: Option<Ledger>): Option<Ledger>
  {
    if && ValidIds(c, q.workflowId, q.attemptId, q.key) && c.opaqueId(q.snapshotRef)
       && Parses(q.at) && c.clean(q.at.text) && c.clean(q.key)
       && (existing.Some? ==> ValidLedger(c, existing.value, q.workflowId))
       && !AttemptRecorded(EntriesOf(existing), q.attemptId) && !KeyRecorded(EntriesOf(existing), q.key)
       && |EntriesOf(existing)| < MAX_ENTRIES
    then Some(Ledger(q.workflowId, q.snapshotRef, q.at,
                     EntriesOf(existing) + [LedgerEntry(q.attemptId, q.key, Reserved, q.at)]))
    else None
  }

  // ---- State update ----------------------------------------------------------

  datatype Update = Update(workflowId: Text, attemptId: Text, key: Text, snapshotRef: Text, at: Stamp, next: EntryState)

  /** `findIndex` of the entry holding both the attempt and the key. */
  method FindEntry(entries: seq<LedgerEntry>, attemptId: Text, key: Text) returns (index: Option<nat>)
    ensures index.Some? ==> index.value < |entries|
                            && entries[index.value].attemptId == attemptId && entries[index.value].key == key
    ensures index.None? ==>
              forall i :: 0 <= i < |entries| ==> !(entries[i].attemptId == attemptId && entries[i].key == key)
  {
    for i := 0 to |entries|
      invariant forall j :: 0 <= j < i ==> !(entries[j].attemptId == attemptId && entries[j].key == key)
    {
      if entries[i].attemptId == attemptId && entries[i].key == key {
        return Some(i);
      }
    }
    return None;
  }

  ghost predicate Advanced(q: Update, before: seq<LedgerEntry>, after: seq<LedgerEntry>)
  {
    && |after| == |before|
    && exists i :: 0 <= i < |before| && before[i].attemptId == q.attemptId && before[i].key == q.key
                   && after == before[i := before[i].(state := q.next, recordedAt := q.at)]
  }

  /** When an update can be prepared: the ledger is valid, holds the pair, the new
      state is not `reserved`, and the texts are acceptable. */
  ghost predicate UpdateAllowed(c: FieldChecks, q: Update, existing: Option<Ledger>)
  {
    && ValidIds(c, q.workflowId, q.attemptId, q.key) && c.opaqueId(q.snapshotRef)
    && Parses(q.at) && c.clean(q.at.text) && q.next != Reserved
    && existing.Some? && ValidLedger(c, existing.value, q.workflowId)
    && exists e :: e in existing.value.entries && e.attemptId == q.attemptId && e.key == q.key
  }

  method PrepareUpdate(c: FieldChecks, q: Update, existing: Option<Ledger>) returns (r: Option<Ledger>)
    ensures r.Some? <==> UpdateAllowed(c, q, existing)
    ensures r.Some? ==>
              && ValidLedger(c, r.value, q.workflowId)
              && r.value.snapshotRef == q.snapshotRef && r.value.observedAt == q.at
              && Advanced(q, existing.value.entries, r.value.entries)
  {
    var ok := && ValidIds(c, q.workflowId, q.attemptId, q.key) && c.opaqueId(q.snapshotRef)
              && Parses(q.at) && q.next != Reserved;
    r := None;
    if existing.Some? {
      var entries := existing.value.entries;
      var valid := ValidateLedger(c, existing.value, q.workflowId);
      var index := FindEntry(entries, q.attemptId, q.key);
      if ok && valid && index.Some? {
        var i := index.value;
        var updated := entries[i := entries[i].(state := q.next, recordedAt := q.at)];
        var candidate := Ledger(q.workflowId, q.snapshotRef, q.at, updated);
        var candidateValid := ValidateLedger(c, candidate, q.workflowId);
        assert forall j :: 0 <= j < |updated| ==>
            updated[j].attemptId == entries[j].attemptId && updated[j].key == entries[j].key;
        assert entries[i] in entries && updated[i] in updated;
        forall e | e in updated && c.clean(q.at.text)
          ensures ValidEntry(c, e)
        {
          var n :| 0 <= n < |updated| && updated[n] == e;
          assert entries[n] in entries;
        }
        if candidateValid {
          r := Some(candidate);
        }
      }
    }
  }

  // ---- Runs ------------------------------------------------------------------

  /** One step of the ledger: a reservation or an update that was prepared and
      stored, or a call that was blocked and changed nothing. */
  ghost predicate StepOk(c: FieldChecks, before: Option<Ledger>, after: Option<Ledger>)
  {
    || after == before
    || (exists q: Reservation :: ReserveSpec(c, q, before).Some? && after == ReserveSpec(c, q, before))
    || (exists q: Update :: UpdateStep(c, q, before, after))
  }

  ghost predicate UpdateStep(c: FieldChecks, q: Update, before: Option<Ledger>, after: Option<Ledger>)
  {
    && before.Some? && after.Some? && q.next != Reserved
    && ValidLedger(c, before.value, q.workflowId) && ValidLedger(c, after.value, q.workflowId)
    && Advanced(q, before.value.entries, after.value.entries)
  }

  ghost predicate Run(c: FieldChecks, trace: seq<Option<Ledger>>)
  {
    trace != [] && forall i :: 0 <= i < |trace| - 1 ==> StepOk(c, trace[i], trace[i + 1])
  }

  ghost predicate Sound(c: FieldChecks, ledger: Option<Ledger>)
  {
    ledger.Some? ==> ValidLedger(c, ledger.value, ledger.value.workflowId)
  }

  /** `after` keeps every (attempt, key) pair of `before` in place, adds at most at the
      end, and never makes a settled entry reserved again. */
  ghost predicate Extends(before: seq<LedgerEntry>, after: seq<LedgerEntry>)
  {
    && |before| <= |after|
    && forall i :: 0 <= i < |before| ==>
         && before[i].attemptId == after[i].attemptId && before[i].key == after[i].key
         && (!before[i].state.Reserved? ==> !after[i].state.Reserved?)
  }

  lemma ReservationStep(c: FieldChecks, q: Reservation, before: Option<Ledger>)
    requires Sound(c, before) && ReserveSpec(c, q, before).Some?
    ensures Sound(c, ReserveSpec(c, q, before))
    ensures Extends(EntriesOf(before), EntriesOf(ReserveSpec(c, q, before)))
  {
  }

  lemma StepSound(c: FieldChecks, before: Option<Ledger>, after: Option<Ledger>)
    requires Sound(c, before) && StepOk(c, before, after)
    ensures Sound(c, after) && Extends(EntriesOf(before), EntriesOf(after))
  {
    if after != before {
      if q: Reservation :| ReserveSpec(c, q, before).Some? && after == ReserveSpec(c, q, before) {
        ReservationStep(c, q, before);
      }
    }
  }

  lemma ExtendsTransitive(a: seq<LedgerEntry>, b: seq<LedgerEntry>, d: seq<LedgerEntry>)
    requires Extends(a, b) && Extends(b, d)
    ensures Extends(a, d)
  {
  }

  /** Over any run from a sound ledger, every ledger is valid (bounded, with distinct
      attempts and distinct keys) and every later ledger extends every earlier one. */
  lemma {:induction false} RunSound(c: FieldChecks, trace: seq<Option<Ledger>>, i: nat, j: nat)
    requires Run(c, trace) && Sound(c, trace[0]) && i <= j < |trace|
    ensures Sound(c, trace[i]) && Sound(c, trace[j])
    ensures Extends(EntriesOf(trace[i]), EntriesOf(trace[j]))
    decreases j - i
  {
    if i == j {
      RunStaysSound(c, trace, i);
    } else {
      RunSound(c, trace, i, j - 1);
      RunStep(c, trace, i, j);
    }
  }

  lemma {:induction false} RunStaysSound(c: FieldChecks, trace: seq<Option<Ledger>>, i: nat)
    requires Run(c, trace) && Sound(c, trace[0]) && i < |trace|
    ensures Sound(c, trace[i])
  {
    if i > 0 {
      RunStaysSound(c, trace, i - 1);
      StepSound(c, trace[i - 1], trace[i]);
    }
  }

  lemma RunStep(c: FieldChecks, trace: seq<Option<Ledger>>, i: nat, j: nat)
    requires Run(c, trace) && i < j < |trace|
    requires Sound(c, trace[j - 1]) && Extends(EntriesOf(trace[i]), EntriesOf(trace[j - 1]))
    ensures Sound(c, trace[j]) && Extends(EntriesOf(trace[i]), EntriesOf(trace[j]))
  {
    StepSound(c, trace[j - 1], trace[j]);
    ExtendsTransitive(EntriesOf(trace[i]), EntriesOf(trace[j - 1]), EntriesOf(trace[j]));
  }

  lemma ExtendsRecorded(before: seq<LedgerEntry>, after: seq<LedgerEntry>, attemptId: Text, key: Text)
    requires Extends(before, after)
    ensures AttemptRecorded(before, attemptId) ==> AttemptRecorded(after, attemptId)
    ensures KeyRecorded(before, key) ==> KeyRecorded(after, key)
  {
    if n :| 0 <= n < |before| && before[n].attemptId == attemptId {
      assert after[n].attemptId == attemptId;
    }
    if n :| 0 <= n < |before| && before[n].key == key {
      assert after[n].key == key;
    }
  }

  lemma RecordedPersists(c: FieldChecks, trace: seq<Option<Ledger>>, i: nat, j: nat, attemptId: Text, key: Text)
    requires Run(c, trace) && Sound(c, trace[0]) && i <= j < |trace|
    ensures AttemptRecorded(EntriesOf(trace[i]), attemptId) ==> AttemptRecorded(EntriesOf(trace[j]), attemptId)
    ensures KeyRecorded(EntriesOf(trace[i]), key) ==> KeyRecorded(EntriesOf(trace[j]), key)
  {
    RunSound(c, trace, i, j);
    ExtendsRecorded(EntriesOf(trace[i]), EntriesOf(trace[j]), attemptId, key);
  }

  /** Once an attempt or a key is in the ledger, every later replay check for it is
      blocked, whatever the other half of the pair is. */
  lemma RecordedForever(c: FieldChecks, trace: seq<Option<Ledger>>, i: nat, j: nat,
                        workflowId: Text, attemptId: Text, key: Text)
    requires Run(c, trace) && Sound(c, trace[0]) && i <= j < |trace|
    requires AttemptRecorded(EntriesOf(trace[i]), attemptId) || KeyRecorded(EntriesOf(trace[i]), key)
    ensures !ReplaySafe(c, workflowId, attemptId, key, trace[j])
  {
    RecordedPersists(c, trace, i, j, attemptId, key);
  }

  /** A reservation stored at step `i` of the run. */
  ghost predicate ReservedAt(c: FieldChecks, trace: seq<Option<Ledger>>, i: nat, q: Reservation)
  {
    i + 1 < |trace| && ReserveSpec(c, q, trace[i]).Some? && trace[i + 1] == ReserveSpec(c, q, trace[i])
  }

  /** Dispatch at most once: two reservations of one run that share an attempt id or a
      key are the same step. */
  lemma ReservedOnce(c: FieldChecks, trace: seq<Option<Ledger>>, i: nat, p: Reservation, j: nat, q: Reservation)
    requires Run(c, trace) && Sound(c, trace[0])
    requires ReservedAt(c, trace, i, p) && ReservedAt(c, trace, j, q)
    requires p.attemptId == q.attemptId || p.key == q.key
    ensures i == j
  {
    NotReservedLater(c, trace, i, p, j, q);
    NotReservedLater(c, trace, j, q, i, p);
  }

  lemma NotReservedLater(c: FieldChecks, trace: seq<Option<Ledger>>, i: nat, p: Reservation, j: nat, q: Reservation)
    requires Run(c, trace) && Sound(c, trace[0])
    requires ReservedAt(c, trace, i, p) && ReservedAt(c, trace, j, q)
    requires p.attemptId == q.attemptId || p.key == q.key
    ensures i >= j
  {
    var entries, last := EntriesOf(trace[i]), LedgerEntry(p.attemptId, p.key, Reserved, p.at);
    RecordedStep(entries, last, q.attemptId, q.key);
    if i < j {
      RecordedPersists(c, trace, i + 1, j, q.attemptId, q.key);
    }
  }

  /** The guard a caller can check before reserving: with acceptable texts, a
      reservation against a valid ledger succeeds exactly when the replay check is clear
      and the ledger has room. */
  lemma ReserveIffReplaySafe(c: FieldChecks, q: Reservation, ledger: Ledger)
    requires c.opaqueId(q.snapshotRef) && Parses(q.at) && c.clean(q.at.text) && c.clean(q.key)
    ensures ReserveSpec(c, q, Some(ledger)).Some?
       <==> ReplaySafe(c, q.workflowId, q.attemptId, q.key, Some(ledger)) && |ledger.entries| < MAX_ENTRIES
  {
  }

  /** Times of a ledger are readable and clean, at its head and in every entry, and so is
      every key. */
  lemma LedgerFieldsDecide(c: FieldChecks, l: Ledger, i: nat, at: Stamp, key: Text)
    requires ValidLedger(c, l, l.workflowId) && i < |l.entries| && !KeyRecorded(l.entries, key)
    ensures ValidLedger(c, l.(observedAt := at), l.workflowId) <==> at.ms.Some? && c.clean(at.text)
    ensures ValidLedger(c, l.(entries := l.entries[i := l.entries[i].(recordedAt := at)]), l.workflowId)
       <==> at.ms.Some? && c.clean(at.text)
    ensures ValidLedger(c, l.(entries := l.entries[i := l.entries[i].(key := key)]), l.workflowId)
       <==> c.opaqueId(key) && c.clean(key)
  {
    assert l.entries[i] in l.entries;
    EntryExchange(c, l, i, l.entries[i].(recordedAt := at));
    EntryExchange(c, l, i, l.entries[i].(key := key));
  }

  /** Exchanging an entry for one that repeats no other's attempt or key. */
  lemma EntryExchange(c: FieldChecks, l: Ledger, i: nat, e: LedgerEntry)
    requires ValidLedger(c, l, l.workflowId) && i < |l.entries|
    requires forall j :: 0 <= j < |l.entries| && j != i ==>
               l.entries[j].attemptId != e.attemptId && l.entries[j].key != e.key
    ensures ValidLedger(c, l.(entries := l.entries[i := e]), l.workflowId) <==> ValidEntry(c, e)
  {
    var entries := l.entries[i := e];
    assert entries[i] == e && e in entries;
    forall x | x in entries && x != e
      ensures ValidEntry(c, x)
    {
      var j :| 0 <= j < |entries| && entries[j] == x;
      assert l.entries[j] in l.entries;
    }
  }
}
