/** What the lane stall projection promises as a whole: coverage, counting, sort
    order, behaviour as time passes, and independence of evidence order. */
module LaneTheorems {
  import opened Collections
  import opened StableSort
  import opened Texts
  import opened PreferenceFold
  import opened LaneOrder
  import opened LaneProjection

  // ---- Coverage and counting -------------------------------------------------

  /** The projected lanes are pairwise distinct and are exactly the lanes with
      parseable evidence. */
  lemma {:induction false} OneRowPerLane(entries: seq<Entry>)
    ensures NoDup(Lanes(entries, SnapshotOf, LaneId))
    ensures forall k :: k in Lanes(entries, SnapshotOf, LaneId) <==> LaneSnapshots(entries, k) != []
    ensures forall k :: k in Lanes(entries, SnapshotOf, LaneId) <==>
              exists e :: e in entries && SnapshotOf(e).Some? && SnapshotOf(e).value.laneId == k
  {
    if entries != [] {
      var front, e := entries[..|entries| - 1], entries[|entries| - 1];
      assert entries == front + [e];
      OneRowPerLane(front);
    }
  }

  lemma RowOrder()
    ensures TotalPreorder<Row>(RowAtMost)
  {
  }

  /** Every row falls in one class, so the five totals and the unknown rows add up. */
  lemma {:induction false} CountsPartition(rows: seq<Row>)
    ensures Count(rows, ProgressingNormal) + Count(rows, ProgressingLate) + Count(rows, Stalled)
            + Count(rows, Inconsistent) + Count(rows, TerminalClass) + Count(rows, UnknownClass) == |rows|
  {
    if rows != [] {
      var front, x := rows[..|rows| - 1], rows[|rows| - 1];
      assert rows == front + [x];
      CountsPartition(front);
      forall c ensures Count(rows, c) == Count(front, c) + if x.classification == c then 1 else 0 {
        CountStep(front, x, c);
      }
    }
  }

  lemma TotalsAddUp(t: Totals, rows: seq<Row>)
    requires TotalsMatch(t, rows)
    ensures t.active + t.inconsistent + t.terminal + Count(rows, UnknownClass) == |rows|
  {
    CountsPartition(rows);
  }

  /** The reported worst class bounds every row and is attained. */
  lemma WorstIsLeastRank(rows: seq<Row>)
    ensures forall x :: x in rows ==> WorstOf(rows).Rank() <= x.classification.Rank()
    ensures rows != [] ==> exists x :: x in rows && x.classification == WorstOf(rows)
  {
    if rows != [] {
      assert rows[0] in rows;
    }
  }

  /** `worstClassification` is the class of the first sorted row. */
  lemma WorstIsHead(unsorted: seq<Row>)
    ensures var rows := Sort(RowAtMost, unsorted);
            WorstOf(rows) == if rows == [] then UnknownClass else rows[0].classification
  {
    var rows := Sort(RowAtMost, unsorted);
    RowOrder();
    SortSorted(RowAtMost, unsorted);
    WorstIsLeastRank(rows);
    if rows != [] {
      assert rows[0] in rows;
      var x :| x in rows && x.classification == WorstOf(rows);
      var i :| 0 <= i < |rows| && rows[i] == x;
      assert i == 0 || RowAtMost(rows[0], rows[i]);
    }
  }

  // ---- Time ------------------------------------------------------------------

  lemma NewerWeakOrder(s: seq<Signal>)
    ensures WeakOrderOn(Newer, s)
  {
    forall a, b | a in s && b in s && Newer(a, b)
      ensures !Newer(b, a)
    {
      LessAsymmetric(a.evidenceId, b.evidenceId);
    }
    forall a, b, c | a in s && b in s && c in s && !Newer(a, b) && !Newer(b, c)
      ensures !Newer(a, c)
    {
      if AtMost(a.evidenceId, b.evidenceId) && AtMost(b.evidenceId, c.evidenceId) {
        AtMostTransitive(a.evidenceId, b.evidenceId, c.evidenceId);
      }
    }
  }

  /** Everything heard of a lane - lifecycle, heartbeats, progress - is older than `ms`. */
  ghost predicate QuietFor(entries: seq<Entry>, lane: Text, observedAtMs: int, ms: int)
  {
    && (forall x :: x in LaneSnapshots(entries, lane) ==> observedAtMs - x.updatedAtMs > ms)
    && (forall p :: p in Parsed(entries, ProgressOf, SignalLane, lane) ==> observedAtMs - p.observedAtMs > ms)
  }

  /** The instant a row of an active lane is measured from is the latest instant of any
      evidence of that lane. */
  lemma LastSignalIsLatest(entries: seq<Entry>, lane: Text)
    requires Chosen(LaneSnapshots(entries, lane)).Some? && Chosen(LaneSnapshots(entries, lane)).value.state.Active()
    ensures var chosen := Chosen(LaneSnapshots(entries, lane)).value;
      var last := SignalSnapshot(chosen, LaneProgress(entries, lane)).updatedAtMs;
      && (forall x :: x in LaneSnapshots(entries, lane) ==> x.updatedAtMs <= last)
      && (forall p :: p in Parsed(entries, ProgressOf, SignalLane, lane) ==> p.observedAtMs <= last)
      && ((exists x :: x in LaneSnapshots(entries, lane) && x.updatedAtMs == last)
          || (exists p :: p in Parsed(entries, ProgressOf, SignalLane, lane) && p.observedAtMs == last))
  {
    var s, progress := LaneSnapshots(entries, lane), Parsed(entries, ProgressOf, SignalLane, lane);
    LaneSnapshotsFromFold(entries, lane);
    SafetyPassRedundant(s);
    WinnerRank(s);
    if progress != [] {
      NewerWeakOrder(progress);
      WinnerUndominated(Newer, progress);
    }
  }

  /** An active, uncontradicted lane is stalled exactly when every piece of its evidence is
      older than the stall threshold, late exactly when all of it is older than the late
      threshold but not the stall threshold, and normal as long as anything is recent. */
  lemma SilenceDecides(entries: seq<Entry>, lane: Text, observedAtMs: int, lateMs: int, stallMs: int)
    requires Chosen(LaneSnapshots(entries, lane)).Some? && 0 <= lateMs < stallMs
    requires var row := LaneRow(entries, lane, observedAtMs, lateMs, stallMs);
      row.lifecycleState.Active() && !row.classification.Inconsistent?
    ensures var row := LaneRow(entries, lane, observedAtMs, lateMs, stallMs);
      && (row.classification.Stalled? <==> QuietFor(entries, lane, observedAtMs, stallMs))
      && (row.classification.ProgressingLate?
          <==> QuietFor(entries, lane, observedAtMs, lateMs) && !QuietFor(entries, lane, observedAtMs, stallMs))
      && (row.classification.ProgressingNormal? <==> !QuietFor(entries, lane, observedAtMs, lateMs))
  {
    LastSignalIsLatest(entries, lane);
    var last := SignalSnapshot(Chosen(LaneSnapshots(entries, lane)).value, LaneProgress(entries, lane)).updatedAtMs;
    assert QuietFor(entries, lane, observedAtMs, stallMs) <==> observedAtMs - last > stallMs;
    assert QuietFor(entries, lane, observedAtMs, lateMs) <==> observedAtMs - last > lateMs;
  }

  /** `m` is the instant a lane is measured from: the latest of all its evidence, progress
      included, while it is active, and the instant of the chosen record otherwise. */
  ghost predicate MeasuredFrom(entries: seq<Entry>, lane: Text, m: int)
    requires Chosen(LaneSnapshots(entries, lane)).Some?
  {
    var w := Chosen(LaneSnapshots(entries, lane)).value;
    if w.state.Active() then
      && (forall x :: x in LaneSnapshots(entries, lane) ==> x.updatedAtMs <= m)
      && (forall p :: p in Parsed(entries, ProgressOf, SignalLane, lane) ==> p.observedAtMs <= m)
      && ((exists x :: x in LaneSnapshots(entries, lane) && x.updatedAtMs == m)
          || (exists p :: p in Parsed(entries, ProgressOf, SignalLane, lane) && p.observedAtMs == m))
    else m == w.updatedAtMs
  }

  /** The reported age is the number of whole seconds since then, and zero before. */
  lemma AgeInSeconds(entries: seq<Entry>, lane: Text, observedAtMs: int, lateMs: int, stallMs: int) returns (m: int)
    requires Chosen(LaneSnapshots(entries, lane)).Some?
    ensures MeasuredFrom(entries, lane, m)
    ensures var s := LaneRow(entries, lane, observedAtMs, lateMs, stallMs).secondsSinceLastSignal;
      if observedAtMs < m then s == 0 else 1000 * s <= observedAtMs - m < 1000 * (s + 1)
  {
    var w := Chosen(LaneSnapshots(entries, lane)).value;
    m := SignalSnapshot(w, LaneProgress(entries, lane)).updatedAtMs;
    if w.state.Active() {
      LastSignalIsLatest(entries, lane);
    }
  }

  /** Abnormal, and what the hint says, of the row of a lane in state `failed`. */
  ghost predicate AlertsRightly(row: Row, failed: State)
  {
    && (row.abnormal <==> row.classification in {Inconsistent, Stalled, ProgressingLate})
    && (row.failureHint == Some(FinalizingWithoutTerminal) <==> row.classification == Inconsistent)
    && (row.failureHint == Some(InvocationFailedHint)
        <==> row.classification != Inconsistent && failed == InvocationFailed)
    && (row.failureHint == Some(TransportTimeout) <==> row.classification != Inconsistent && failed == Timeout)
    && (row.failureHint == Some(CorrelationLost) <==> row.classification != Inconsistent && failed == Orphaned)
    && (row.failureHint == Some(AbnormalExit) <==> row.classification != Inconsistent && failed == Aborted)
  }

  lemma RowForAlerts(x: Snapshot, progress: Option<Signal>, inconsistency: Option<Signal>,
                     observedAtMs: int, lateMs: int, stallMs: int)
    ensures AlertsRightly(RowFor(x, progress, inconsistency, observedAtMs, lateMs, stallMs), x.state)
  {
  }

  /** A row is abnormal exactly if it is inconsistent, stalled or late, and its hint names an
      inconsistency first, and else the way the lane failed. */
  lemma RowAlerts(entries: seq<Entry>, lane: Text, observedAtMs: int, lateMs: int, stallMs: int)
    requires Chosen(LaneSnapshots(entries, lane)).Some?
    ensures AlertsRightly(LaneRow(entries, lane, observedAtMs, lateMs, stallMs),
                          Chosen(LaneSnapshots(entries, lane)).value.state)
  {
    RowForAlerts(Chosen(LaneSnapshots(entries, lane)).value, LaneProgress(entries, lane),
                 LaneInconsistency(entries, lane), observedAtMs, lateMs, stallMs);
  }

  /** An active lane has shown progress since its chosen record. */
  ghost predicate ProgressSince(entries: seq<Entry>, lane: Text, w: Snapshot)
  {
    w.state.Active() && exists p :: p in Parsed(entries, ProgressOf, SignalLane, lane) && p.observedAtMs > w.updatedAtMs
  }

  /** A heartbeat is overdue, by so many whole seconds, exactly when its expected instant is
      readable and past, and no progress has come since. */
  lemma OverdueIff(entries: seq<Entry>, lane: Text, observedAtMs: int, lateMs: int, stallMs: int)
    requires Chosen(LaneSnapshots(entries, lane)).Some?
    ensures var w := Chosen(LaneSnapshots(entries, lane)).value;
      var past := LaneRow(entries, lane, observedAtMs, lateMs, stallMs).secondsPastExpected;
      && (past.Some? <==> && w.expectedNext.Some? && w.expectedNext.value.ms.Some?
                          && w.expectedNext.value.ms.value < observedAtMs && !ProgressSince(entries, lane, w))
      && (past.Some? ==>
            1000 * past.value <= observedAtMs - w.expectedNext.value.ms.value < 1000 * (past.value + 1))
  {
    LaneSnapshotsFromFold(entries, lane);
    SafetyPassRedundant(LaneSnapshots(entries, lane));
    var p := Parsed(entries, ProgressOf, SignalLane, lane);
    if p != [] {
      NewerWeakOrder(p);
      WinnerUndominated(Newer, p);
    }
  }

  /** The thresholds in use: a minute and three minutes unless asked otherwise, never below ten
      seconds, and a second apart at least. */
  lemma ThresholdsMean(late: Option<int>, stall: Option<int>)
    ensures late == None || late.value <= 0 ==> LateThreshold(late) == 60_000
    ensures late.Some? && 0 < late.value < 10_000 ==> LateThreshold(late) == 10_000
    ensures late.Some? && late.value >= 10_000 ==> LateThreshold(late) == late.value
    ensures var l, s := LateThreshold(late), StallThreshold(stall, LateThreshold(late));
      var wanted := if stall.Some? && stall.value >= 1 then stall.value else 180_000;
      s >= wanted && s - l >= 1_000 && (s == wanted || s - l == 1_000)
  {
  }

  /** What dates the evidence: a heartbeat its observation, other records their update, or their
      creation if they were never updated; signals without a readable instant count from 0. */
  lemma EvidenceDates(e: Entry)
    ensures SnapshotOf(e).Some? && e.cls.HeartbeatClass? ==>
      e.observedAt == Some(Stamp(SnapshotOf(e).value.updatedAt, Some(SnapshotOf(e).value.updatedAtMs)))
    ensures SnapshotOf(e).Some? && !e.cls.HeartbeatClass? ==>
      Some(Stamp(SnapshotOf(e).value.updatedAt, Some(SnapshotOf(e).value.updatedAtMs)))
      in (if e.updatedAt != None then {e.updatedAt} else {e.createdAt})
    ensures InconsistencyOf(e).Some? ==>
      && e.finalizingWithoutTerminal
      && (e.observedAt == None || e.observedAt.value.ms == None ==> InconsistencyOf(e).value.observedAtMs == 0)
    ensures ProgressOf(e).Some? && e.observedAt == None ==> ProgressOf(e).value.observedAtMs == 0
  {
  }

  lemma ClassifyNeverImproves(x: Snapshot, early: int, late: int, lateMs: int, stallMs: int)
    requires early <= late && lateMs < stallMs
    ensures var (before, after) := (Classify(x, early, lateMs, stallMs), Classify(x, late, lateMs, stallMs));
      after.0.Rank() <= before.0.Rank() && after.1 >= before.1
  {
    var a, b := early - x.updatedAtMs, late - x.updatedAtMs;
    assert a / 1000 <= b / 1000 && Max(0, a) / 1000 <= Max(0, b) / 1000;
  }

  lemma RowNeverImproves(x: Snapshot, progress: Option<Signal>, inconsistency: Option<Signal>,
                         early: int, late: int, lateMs: int, stallMs: int)
    requires early <= late && lateMs < stallMs
    ensures var (before, after) := (RowFor(x, progress, inconsistency, early, lateMs, stallMs),
                                    RowFor(x, progress, inconsistency, late, lateMs, stallMs));
      && after.classification.Rank() <= before.classification.Rank()
      && after.secondsSinceLastSignal >= before.secondsSinceLastSignal
  {
    ClassifyNeverImproves(SignalSnapshot(x, progress), early, late, lateMs, stallMs);
  }

  /** Observing later, with the evidence fixed, never improves a lane's class. */
  lemma LaneNeverImproves(entries: seq<Entry>, lane: Text, early: int, late: int, lateMs: int, stallMs: int)
    requires Chosen(LaneSnapshots(entries, lane)).Some?
    requires early <= late && lateMs < stallMs
    ensures LaneRow(entries, lane, late, lateMs, stallMs).classification.Rank()
         <= LaneRow(entries, lane, early, lateMs, stallMs).classification.Rank()
    ensures LaneRow(entries, lane, late, lateMs, stallMs).secondsSinceLastSignal
         >= LaneRow(entries, lane, early, lateMs, stallMs).secondsSinceLastSignal
  {
    RowNeverImproves(Chosen(LaneSnapshots(entries, lane)).value, LaneProgress(entries, lane),
                     LaneInconsistency(entries, lane), early, late, lateMs, stallMs);
  }

  /** Nor does it improve the worst class of the projection. */
  lemma WorstNeverImproves(entries: seq<Entry>, early: int, late: int, lateMs: int, stallMs: int,
                           before: seq<Row>, after: seq<Row>)
    requires early <= late && lateMs < stallMs
    requires Covers(before, entries, early, lateMs, stallMs) && Covers(after, entries, late, lateMs, stallMs)
    ensures WorstOf(after).Rank() <= WorstOf(before).Rank()
  {
    WorstIsLeastRank(before);
    WorstIsLeastRank(after);
    if before != [] {
      var x :| x in before && x.classification == WorstOf(before);
      var i :| 0 <= i < |before| && before[i] == x;
      LaneNeverImproves(entries, Lanes(entries, SnapshotOf, LaneId)[i], early, late, lateMs, stallMs);
      assert after[i] in after;
    }
  }

  // ---- Task results ----------------------------------------------------------

  /** Once the evidence holds a task result for a lane, the lane is reported in state
      `task_result` and never as running, late or stalled, whatever else is there. */
  lemma TaskResultDecides(entries: seq<Entry>, e: Entry, observedAtMs: int, lateMs: int, stallMs: int)
    requires e in entries && e.cls.TaskResultClass? && SnapshotOf(e).Some?
    ensures var lane := SnapshotOf(e).value.laneId;
            && Chosen(LaneSnapshots(entries, lane)).Some?
            && var row := LaneRow(entries, lane, observedAtMs, lateMs, stallMs);
               && row.lifecycleState == TaskResult
               && (row.classification.TerminalClass? || row.classification.Inconsistent?)
  {
    var lane := SnapshotOf(e).value.laneId;
    var s := LaneSnapshots(entries, lane);
    TaskResultThere(entries, e);
    LaneSnapshotsFromFold(entries, lane);
    SafetyPassRedundant(s);
    TaskResultSticks(s);
  }

  lemma TaskResultThere(entries: seq<Entry>, e: Entry)
    requires e in entries && e.cls.TaskResultClass? && SnapshotOf(e).Some?
    ensures var x := SnapshotOf(e).value;
      x in LaneSnapshots(entries, x.laneId) && x.state.TaskResult?
  {
    var x := SnapshotOf(e).value;
    var pick := ForLane(SnapshotOf, LaneId, x.laneId);
    assert LaneId(x) == x.laneId && pick(e) == Some(x);
    CollectMember(pick, entries, x);
  }

  // ---- Which class a lane is in ----------------------------------------------

  /** A lane's row is in a terminal state exactly when its evidence holds a task result, or
      a terminal record nothing is newer than; its class is then terminal, or inconsistent. */
  lemma TerminalLane(entries: seq<Entry>, lane: Text, observedAtMs: int, lateMs: int, stallMs: int)
    requires LaneSnapshots(entries, lane) != []
    ensures Chosen(LaneSnapshots(entries, lane)).Some?
    ensures var s, row := LaneSnapshots(entries, lane), LaneRow(entries, lane, observedAtMs, lateMs, stallMs);
      && (row.lifecycleState.Terminal()
          <==> (exists x :: x in s && x.state.TaskResult?) || exists t :: AtLatest(s, t) && t.state.Terminal())
      && (row.lifecycleState.Terminal() ==> row.classification.TerminalClass? || row.classification.Inconsistent?)
  {
    LaneSnapshotsFromFold(entries, lane);
    ChosenTerminalIff(LaneSnapshots(entries, lane));
  }

  /** A progress record of the lane that no other follows: newer than the rest, or of the
      last id among the newest. */
  ghost predicate LastProgress(entries: seq<Entry>, lane: Text, p: Signal)
  {
    var s := Parsed(entries, ProgressOf, SignalLane, lane);
    p in s && forall r :: r in s ==>
      r.observedAtMs < p.observedAtMs || (r.observedAtMs == p.observedAtMs && !Less(p.evidenceId, r.evidenceId))
  }

  /** The last progress came after every inconsistency record, and shows the lane at work. */
  ghost predicate Refuted(entries: seq<Entry>, lane: Text)
  {
    exists p :: && LastProgress(entries, lane, p)
                && (forall r :: r in Parsed(entries, InconsistencyOf, SignalLane, lane) ==>
                      r.observedAtMs < p.observedAtMs)
                && p.phase in {Some(Started), Some(Waiting), Some(Nudged), Some(AwaitingPermission), Some(Retrying)}
  }

  /** A lane is inconsistent exactly when a record says so that its last progress does not
      refute, whatever else is known of it. */
  lemma InconsistentIff(entries: seq<Entry>, lane: Text, observedAtMs: int, lateMs: int, stallMs: int)
    requires Chosen(LaneSnapshots(entries, lane)).Some? && UniqueIds(entries)
    ensures LaneRow(entries, lane, observedAtMs, lateMs, stallMs).classification.Inconsistent?
       <==> Parsed(entries, InconsistencyOf, SignalLane, lane) != [] && !Refuted(entries, lane)
  {
    var i, p := Parsed(entries, InconsistencyOf, SignalLane, lane), Parsed(entries, ProgressOf, SignalLane, lane);
    if i != [] {
      NewerWeakOrder(i);
      WinnerUndominated(Newer, i);
    }
    if p != [] {
      NewerWeakOrder(p);
      WinnerUndominated(Newer, p);
      assert LastProgress(entries, lane, Fold(Newer, p).value);
      forall q | LastProgress(entries, lane, q)
        ensures q == Fold(Newer, p).value
      {
        TopSignalUnique(entries, ProgressOf, lane, q, Fold(Newer, p).value);
      }
    }
  }

  // ---- Order of the evidence -------------------------------------------------

  /** Evidence ids name one record within their class, as file names do. */
  ghost predicate UniqueIds(entries: seq<Entry>)
  {
    forall e, f :: e in entries && f in entries && e.cls == f.cls && e.evidenceId == f.evidenceId ==> e == f
  }

  lemma TopSignalUnique(entries: seq<Entry>, parse: Entry -> Option<Signal>, k: Text, x: Signal, y: Signal)
    requires UniqueIds(entries)
    requires forall e, f :: parse(e).Some? && parse(f).Some? ==> e.cls == f.cls
    requires forall e :: parse(e).Some? ==> parse(e).value.evidenceId == e.evidenceId
    requires x in Parsed(entries, parse, SignalLane, k) && y in Parsed(entries, parse, SignalLane, k)
    requires !Newer(x, y) && !Newer(y, x)
    ensures x == y
  {
    LessTotal(x.evidenceId, y.evidenceId);
    assert x.evidenceId == y.evidenceId;
    CollectMember(ForLane(parse, SignalLane, k), entries, x);
    CollectMember(ForLane(parse, SignalLane, k), entries, y);
  }

  /** The newest signal of a lane does not depend on the order of the evidence. */
  lemma SignalOrderFree(a: seq<Entry>, b: seq<Entry>, parse: Entry -> Option<Signal>, k: Text)
    requires multiset(a) == multiset(b) && UniqueIds(a)
    requires forall e, f :: parse(e).Some? && parse(f).Some? ==> e.cls == f.cls
    requires forall e :: parse(e).Some? ==> parse(e).value.evidenceId == e.evidenceId
    ensures Fold(Newer, Parsed(a, parse, SignalLane, k)) == Fold(Newer, Parsed(b, parse, SignalLane, k))
  {
    var s, t := Parsed(a, parse, SignalLane, k), Parsed(b, parse, SignalLane, k);
    CollectPermutes(ForLane(parse, SignalLane, k), a, b);
    PermutationMembers(s, t);
    if s != [] {
      NewerWeakOrder(s);
      NewerWeakOrder(t);
      WinnerUndominated(Newer, s);
      WinnerUndominated(Newer, t);
      TopSignalUnique(a, parse, k, Fold(Newer, s).value, Fold(Newer, t).value);
    }
  }

  lemma SignalsOrderFree(a: seq<Entry>, b: seq<Entry>, k: Text)
    requires multiset(a) == multiset(b) && UniqueIds(a)
    ensures LaneProgress(a, k) == LaneProgress(b, k) && LaneInconsistency(a, k) == LaneInconsistency(b, k)
  {
    SignalOrderFree(a, b, ProgressOf, k);
    SignalOrderFree(a, b, InconsistencyOf, k);
  }

  /** With ids naming records, the class and the elapsed seconds of every lane are the
      same for every order of the evidence. Heartbeats need not be well-formed: the
      preference cycle can change which record is shown, never how the lane is classified. */
  lemma ClassificationOrderFree(a: seq<Entry>, b: seq<Entry>, k: Text, observedAtMs: int, lateMs: int, stallMs: int)
    requires multiset(a) == multiset(b) && UniqueIds(a)
    requires LaneSnapshots(a, k) != []
    ensures Chosen(LaneSnapshots(a, k)).Some? && Chosen(LaneSnapshots(b, k)).Some?
    ensures LaneRow(a, k, observedAtMs, lateMs, stallMs).classification
         == LaneRow(b, k, observedAtMs, lateMs, stallMs).classification
    ensures LaneRow(a, k, observedAtMs, lateMs, stallMs).secondsSinceLastSignal
         == LaneRow(b, k, observedAtMs, lateMs, stallMs).secondsSinceLastSignal
  {
    var s, t := LaneSnapshots(a, k), LaneSnapshots(b, k);
    ChosenRankOrderFree(a, b, k);
    SignalsOrderFree(a, b, k);
    ClassFromRank(Chosen(s).value, Chosen(t).value, LaneProgress(a, k), LaneInconsistency(a, k),
                  observedAtMs, lateMs, stallMs);
  }

  lemma ChosenRankOrderFree(a: seq<Entry>, b: seq<Entry>, k: Text)
    requires multiset(a) == multiset(b) && LaneSnapshots(a, k) != []
    ensures Chosen(LaneSnapshots(a, k)).Some? && Chosen(LaneSnapshots(b, k)).Some?
    ensures SameRank(Chosen(LaneSnapshots(a, k)).value, Chosen(LaneSnapshots(b, k)).value)
  {
    CollectPermutes(ForLane(SnapshotOf, LaneId, k), a, b);
    LaneSnapshotsFromFold(a, k);
    LaneSnapshotsFromFold(b, k);
    SafetyPassRedundant(LaneSnapshots(a, k));
    SafetyPassRedundant(LaneSnapshots(b, k));
    WinnerRankOrderFree(LaneSnapshots(a, k), LaneSnapshots(b, k));
  }

  lemma ClassFromRank(x: Snapshot, y: Snapshot, progress: Option<Signal>, inconsistency: Option<Signal>,
                      observedAtMs: int, lateMs: int, stallMs: int)
    requires SameRank(x, y)
    ensures var (r, q) := (RowFor(x, progress, inconsistency, observedAtMs, lateMs, stallMs),
                           RowFor(y, progress, inconsistency, observedAtMs, lateMs, stallMs));
            r.classification == q.classification && r.secondsSinceLastSignal == q.secondsSinceLastSignal
  {
  }

  /** What the heartbeat record validator guarantees of reloaded heartbeats. */
  ghost predicate HeartbeatsValidated(entries: seq<Entry>)
  {
    forall e :: e in entries && e.cls.HeartbeatClass? ==>
      e.heartbeatSeq.Some? && e.state.Some? && e.state.value.Active()
  }

  /** Heartbeats of one lane observed at one instant carry different sequence numbers. */
  ghost predicate HeartbeatSeqsDistinct(entries: seq<Entry>)
  {
    forall e, f ::
      (&& e in entries && f in entries && e != f && e.cls.HeartbeatClass? && f.cls.HeartbeatClass?
       && e.laneId == f.laneId && e.observedAt.Some? && f.observedAt.Some?
       && e.observedAt.value.ms == f.observedAt.value.ms) ==> e.heartbeatSeq != f.heartbeatSeq
  }

  /** On validated evidence the whole row of every lane is the same for every order
      of the evidence. */
  lemma RowOrderFree(a: seq<Entry>, b: seq<Entry>, k: Text, observedAtMs: int, lateMs: int, stallMs: int)
    requires multiset(a) == multiset(b) && UniqueIds(a)
    requires HeartbeatsValidated(a) && HeartbeatSeqsDistinct(a)
    requires LaneSnapshots(a, k) != []
    ensures Chosen(LaneSnapshots(a, k)).Some? && Chosen(LaneSnapshots(b, k)).Some?
    ensures LaneRow(a, k, observedAtMs, lateMs, stallMs) == LaneRow(b, k, observedAtMs, lateMs, stallMs)
  {
    var s, t := LaneSnapshots(a, k), LaneSnapshots(b, k);
    CollectPermutes(ForLane(SnapshotOf, LaneId, k), a, b);
    ValidatedDiscriminated(a, k);
    SafetyPassRedundant(s);
    ChoicePermutationInvariant(s, t);
    SignalsOrderFree(a, b, k);
  }

  // ---- Order of the evidence: the whole projection ---------------------------

  lemma LanesPermute(a: seq<Entry>, b: seq<Entry>)
    requires multiset(a) == multiset(b)
    ensures multiset(Lanes(a, SnapshotOf, LaneId)) == multiset(Lanes(b, SnapshotOf, LaneId))
  {
    PermutationMembers(a, b);
    OneRowPerLane(a);
    OneRowPerLane(b);
    SameMembersPermute(Lanes(a, SnapshotOf, LaneId), Lanes(b, SnapshotOf, LaneId));
  }

  function ClassOf(x: Row): Classification { x.classification }

  lemma {:induction false} CountIsMultiplicity(rows: seq<Row>, c: Classification)
    ensures Count(rows, c) == multiset(Map(ClassOf, rows))[c]
  {
    if rows != [] {
      var front, x := rows[..|rows| - 1], rows[|rows| - 1];
      assert rows == front + [x];
      CountIsMultiplicity(front, c);
      CountStep(front, x, c);
      assert Map(ClassOf, rows) == Map(ClassOf, front) + [x.classification];
    }
  }

  /** With ids naming records, all counts and the worst class of the projection are the same
      for every order of the evidence, however heartbeats are numbered. */
  lemma TotalsOrderFree(a: seq<Entry>, b: seq<Entry>, observedAtMs: int, lateMs: int, stallMs: int,
                        u: seq<Row>, v: seq<Row>)
    requires multiset(a) == multiset(b) && UniqueIds(a)
    requires Covers(u, a, observedAtMs, lateMs, stallMs) && Covers(v, b, observedAtMs, lateMs, stallMs)
    ensures forall c :: Count(u, c) == Count(v, c)
    ensures WorstOf(u) == WorstOf(v)
  {
    var x, y := Lanes(a, SnapshotOf, LaneId), Lanes(b, SnapshotOf, LaneId);
    LanesPermute(a, b);
    OneRowPerLane(a);
    forall i, j | 0 <= i < |x| && 0 <= j < |y| && x[i] == y[j]
      ensures Map(ClassOf, u)[i] == Map(ClassOf, v)[j]
    {
      assert x[i] in x;
      ClassificationOrderFree(a, b, x[i], observedAtMs, lateMs, stallMs);
    }
    AttachedPermute(x, Map(ClassOf, u), y, Map(ClassOf, v));
    forall c
      ensures Count(u, c) == Count(v, c)
    {
      CountIsMultiplicity(u, c);
      CountIsMultiplicity(v, c);
    }
    SameClassesSameWorst(u, v);
  }

  ghost predicate HasClass(rows: seq<Row>, c: Classification)
  {
    exists x :: x in rows && x.classification == c
  }

  lemma CountPositive(rows: seq<Row>, c: Classification)
    ensures Count(rows, c) > 0 <==> HasClass(rows, c)
  {
    var inClass := (x: Row) => x.classification == c;
    FilterMembers(inClass, rows);
    if Count(rows, c) > 0 {
      assert Filter(inClass, rows)[0] in Filter(inClass, rows);
    }
  }

  lemma SameClassesSameWorst(u: seq<Row>, v: seq<Row>)
    requires forall c :: Count(u, c) == Count(v, c)
    ensures WorstOf(u) == WorstOf(v)
  {
    forall c
      ensures HasClass(u, c) <==> HasClass(v, c)
    {
      CountPositive(u, c);
      CountPositive(v, c);
    }
    WorstByClass(u);
    WorstByClass(v);
  }

  lemma WorstByClass(rows: seq<Row>)
    ensures WorstOf(rows) ==
      if HasClass(rows, Inconsistent) then Inconsistent else if HasClass(rows, Stalled) then Stalled
      else if HasClass(rows, ProgressingLate) then ProgressingLate
      else if HasClass(rows, ProgressingNormal) then ProgressingNormal
      else if HasClass(rows, TerminalClass) then TerminalClass else UnknownClass
  {
  }

  /** On validated evidence every order of it gives the same rows, and the same sorted list
      exactly when lanes of one class and age stand in the same first-seen order. */
  lemma ProjectionOrderFree(a: seq<Entry>, b: seq<Entry>, observedAtMs: int, lateMs: int, stallMs: int,
                            u: seq<Row>, v: seq<Row>)
    requires multiset(a) == multiset(b) && UniqueIds(a)
    requires HeartbeatsValidated(a) && HeartbeatSeqsDistinct(a)
    requires Covers(u, a, observedAtMs, lateMs, stallMs) && Covers(v, b, observedAtMs, lateMs, stallMs)
    ensures multiset(u) == multiset(v)
    ensures Sort(RowAtMost, u) == Sort(RowAtMost, v) <==> TiesAgree(RowAtMost, u, v)
  {
    var x, y := Lanes(a, SnapshotOf, LaneId), Lanes(b, SnapshotOf, LaneId);
    LanesPermute(a, b);
    OneRowPerLane(a);
    forall i, j | 0 <= i < |x| && 0 <= j < |y| && x[i] == y[j]
      ensures u[i] == v[j]
    {
      assert x[i] in x;
      RowOrderFree(a, b, x[i], observedAtMs, lateMs, stallMs);
    }
    AttachedPermute(x, u, y, v);
    RowOrder();
    SortAgreesIff(RowAtMost, u, v);
  }

  // ---- Validated evidence is discriminated -----------------------------------

  lemma SnapshotSource(entries: seq<Entry>, k: Text, x: Snapshot) returns (e: Entry)
    requires x in LaneSnapshots(entries, k)
    ensures e in entries && SnapshotOf(e) == Some(x)
  {
    CollectMember(ForLane(SnapshotOf, LaneId, k), entries, x);
    e :| e in entries && SnapshotOf(e) == Some(x);
  }

  lemma PairDiscriminated(e: Entry, f: Entry, x: Snapshot, y: Snapshot)
    requires SnapshotOf(e) == Some(x) && SnapshotOf(f) == Some(y)
    requires e.cls == f.cls && e.evidenceId == f.evidenceId ==> e == f
    requires && e.cls.HeartbeatClass? && f.cls.HeartbeatClass? && e.laneId == f.laneId
             && x.updatedAtMs == y.updatedAtMs ==>
               e == f || e.heartbeatSeq != f.heartbeatSeq
    requires x != y && x.laneId == y.laneId && SameRank(x, y) && x.source == y.source
    ensures if x.source.LaneHeartbeat? then x.heartbeatSeq != y.heartbeatSeq else x.evidenceId != y.evidenceId
  {
  }

  lemma ValidatedDiscriminated(entries: seq<Entry>, k: Text)
    requires UniqueIds(entries) && HeartbeatsValidated(entries) && HeartbeatSeqsDistinct(entries)
    ensures AllWellFormed(LaneSnapshots(entries, k)) && Discriminated(LaneSnapshots(entries, k))
  {
    var s := LaneSnapshots(entries, k);
    LaneSnapshotsFromFold(entries, k);
    forall x | x in s
      ensures WellFormed(x)
    {
      var e := SnapshotSource(entries, k, x);
    }
    forall x, y | x in s && y in s && x != y && SameRank(x, y) && x.source == y.source
      ensures if x.source.LaneHeartbeat? then x.heartbeatSeq != y.heartbeatSeq else x.evidenceId != y.evidenceId
    {
      var e := SnapshotSource(entries, k, x);
      var f := SnapshotSource(entries, k, y);
      PairDiscriminated(e, f, x, y);
    }
  }
}
