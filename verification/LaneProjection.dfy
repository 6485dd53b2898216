/** The lane stall projection: evidence entries are parsed into snapshots, one
    snapshot, progress signal and inconsistency is picked per lane, each lane is
    classified by elapsed time, and the rows are counted and sorted. */
module LaneProjection {
  import opened Collections
  import opened StableSort
  import opened Texts
  import opened PreferenceFold
  import opened LaneOrder

  // ---- Evidence entries ------------------------------------------------------

  datatype EvidenceClass =
    | LifecycleClass | HeartbeatClass | TaskResultClass | ProgressClass | InconsistencyClass | OtherClass

  datatype Phase = Started | Waiting | Nudged | AwaitingPermission | Retrying | OtherPhase(name: Text)

  /** The fields of a reloaded record the projection looks at; an absent, empty or
      non-string field is `None`. */
  datatype Entry = Entry(
    cls: EvidenceClass, evidenceId: Text, laneId: Option<Text>, attemptId: Option<Text>,
    state: Option<State>, updatedAt: Option<Stamp>, createdAt: Option<Stamp>, observedAt: Option<Stamp>,
    heartbeatSeq: Option<real>, expectedNext: Option<Stamp>,
    finalizingWithoutTerminal: bool, phase: Option<Phase>)

  function OrElse<T>(a: Option<T>, b: Option<T>): Option<T>
  {
    if a.Some? then a else b
  }

  function SnapshotOf(e: Entry): (r: Option<Snapshot>)
    ensures r.Some? ==> FromFold(r.value) && e.laneId == Some(r.value.laneId)
  {
    var at := if e.cls.HeartbeatClass? then e.observedAt else OrElse(e.updatedAt, e.createdAt);
    if e.laneId.None? || at.None? || at.value.ms.None? then None
    else
      match e.cls
      case LifecycleClass =>
        if e.state.None? then None
        else Some(Snapshot(e.laneId.value, e.attemptId, e.state.value, at.value.text, at.value.ms.value,
                           e.evidenceId, LaneLifecycle, None, None))
      case HeartbeatClass =>
        if e.state.None? then None
        else Some(Snapshot(e.laneId.value, e.attemptId, e.state.value, at.value.text, at.value.ms.value,
                           e.evidenceId, LaneHeartbeat, e.heartbeatSeq, e.expectedNext))
      case TaskResultClass =>
        Some(Snapshot(e.laneId.value, e.attemptId, TaskResult, at.value.text, at.value.ms.value,
                      e.evidenceId, TaskResultFile, None, None))
      case _ => None
  }

  /** A dated signal of a lane: an inconsistency record or a progress record. */
  datatype Signal = Signal(
    laneId: Text, evidenceId: Text, observedAt: Option<Text>, observedAtMs: int, phase: Option<Phase>)

  function TextOf(at: Option<Stamp>): Option<Text>
  {
    match at case None => None case Some(stamp) => Some(stamp.text)
  }

  /** An unreadable instant counts as 0 for an inconsistency. */
  function InconsistencyOf(e: Entry): (r: Option<Signal>)
  {
    if !e.cls.InconsistencyClass? || !e.finalizingWithoutTerminal || e.laneId.None? then None
    else
      var ms := if e.observedAt.Some? && e.observedAt.value.ms.Some? then e.observedAt.value.ms.value else 0;
      Some(Signal(e.laneId.value, e.evidenceId, TextOf(e.observedAt), ms, None))
  }

  /** A missing instant counts as 0 for progress, an unreadable one drops the record. */
  function ProgressOf(e: Entry): (r: Option<Signal>)
  {
    if !e.cls.ProgressClass? || e.laneId.None? || (e.observedAt.Some? && e.observedAt.value.ms.None?) then None
    else
      var ms := if e.observedAt.Some? then e.observedAt.value.ms.value else 0;
      Some(Signal(e.laneId.value, e.evidenceId, TextOf(e.observedAt), ms, e.phase))
  }

  predicate Newer(current: Signal, previous: Signal)
  {
    current.observedAtMs > previous.observedAtMs
    || (current.observedAtMs == previous.observedAtMs && Less(previous.evidenceId, current.evidenceId))
  }

  // ---- One pick per lane -----------------------------------------------------

  /** A JavaScript `Map` keyed by lane: setting a key that is present keeps its place. */
  datatype LaneMap<V> = LaneMap(order: seq<Text>, at: map<Text, V>)
  {
    ghost predicate Valid() {
      NoDup(order) && forall k :: k in order <==> k in at
    }

    function Get(k: Text): Option<V> {
      if k in at then Some(at[k]) else None
    }

    function Set(k: Text, v: V): LaneMap<V> {
      LaneMap(if k in at then order else order + [k], at[k := v])
    }
  }

  function ForLane<V>(parse: Entry -> Option<V>, lane: V -> Text, k: Text): Entry -> Option<V>
  {
    e => match parse(e) case Some(v) => if lane(v) == k then Some(v) else None case None => None
  }

  /** The parsed values of one lane, in evidence order. */
  function Parsed<V>(entries: seq<Entry>, parse: Entry -> Option<V>, lane: V -> Text, k: Text): (r: seq<V>)
  {
    Collect(ForLane(parse, lane, k), entries)
  }

  /** The lanes with a parsed value, in first-seen order. */
  function Lanes<V>(entries: seq<Entry>, parse: Entry -> Option<V>, lane: V -> Text): (r: seq<Text>)
  {
    if entries == [] then []
    else
      var rest := Lanes(entries[..|entries| - 1], parse, lane);
      match parse(entries[|entries| - 1])
      case Some(v) => if lane(v) in rest then rest else rest + [lane(v)]
      case None => rest
  }

  lemma ParsedStep<V>(front: seq<Entry>, e: Entry, parse: Entry -> Option<V>, lane: V -> Text, k: Text)
    ensures var before := Parsed(front, parse, lane, k);
      Parsed(front + [e], parse, lane, k)
      == if parse(e).Some? && lane(parse(e).value) == k then before + [parse(e).value] else before
  {
    assert (front + [e])[..|front|] == front;
  }

  lemma LanesStep<V>(front: seq<Entry>, e: Entry, parse: Entry -> Option<V>, lane: V -> Text)
    ensures var before := Lanes(front, parse, lane);
      Lanes(front + [e], parse, lane)
      == if parse(e).Some? && lane(parse(e).value) !in before then before + [lane(parse(e).value)] else before
  {
    assert (front + [e])[..|front|] == front;
  }

  /** The loop shared by the three pick functions: the map ends up holding, for every
      lane, the fold of that lane's values, with lanes in first-seen order. */
  method PickPerLane<V>(entries: seq<Entry>, parse: Entry -> Option<V>, lane: V -> Text, prefer: (V, V) -> bool)
    returns (selected: LaneMap<V>)
    ensures selected.Valid()
    ensures selected.order == Lanes(entries, parse, lane)
    ensures forall k :: selected.Get(k) == Fold(prefer, Parsed(entries, parse, lane, k))
  {
    selected := LaneMap([], map[]);
    for i := 0 to |entries|
      invariant selected.Valid()
      invariant selected.order == Lanes(entries[..i], parse, lane)
      invariant forall k :: selected.Get(k) == Fold(prefer, Parsed(entries[..i], parse, lane, k))
    {
      ghost var held := selected;
      var parsed := parse(entries[i]);
      if parsed.Some? {
        var k := lane(parsed.value);
        var previous := selected.Get(k);
        if previous.None? || prefer(parsed.value, previous.value) {
          selected := selected.Set(k, parsed.value);
        }
      }
      assert entries[..i + 1] == entries[..i] + [entries[i]];
      LanesStep(entries[..i], entries[i], parse, lane);
      forall k
        ensures selected.Get(k) == Fold(prefer, Parsed(entries[..i + 1], parse, lane, k))
      {
        var before := Parsed(entries[..i], parse, lane, k);
        ParsedStep(entries[..i], entries[i], parse, lane, k);
        if parsed.Some? && lane(parsed.value) == k {
          FoldStep(prefer, before, parsed.value);
        } else {
          assert selected.Get(k) == held.Get(k);
        }
      }
    }
    assert entries[..|entries|] == entries;
  }

  function TerminalSnapshotOf(e: Entry): (r: Option<Snapshot>)
  {
    match SnapshotOf(e)
    case Some(x) => if x.state.Terminal() then Some(x) else None
    case None => None
  }

  function LaneId(x: Snapshot): Text { x.laneId }

  function SignalLane(x: Signal): Text { x.laneId }

  function LaneSnapshots(entries: seq<Entry>, lane: Text): (r: seq<Snapshot>)
  {
    Parsed(entries, SnapshotOf, LaneId, lane)
  }

  lemma LaneSnapshotFromFold(entries: seq<Entry>, lane: Text, x: Snapshot)
    requires x in LaneSnapshots(entries, lane)
    ensures FromFold(x) && x.laneId == lane
  {
    var pick := ForLane(SnapshotOf, LaneId, lane);
    CollectMember(pick, entries, x);
    var e :| e in entries && pick(e) == Some(x);
    assert SnapshotOf(e) == Some(x) && LaneId(x) == lane;
  }

  lemma LaneSnapshotsFromFold(entries: seq<Entry>, lane: Text)
    ensures AllFromFold(LaneSnapshots(entries, lane))
    ensures forall x :: x in LaneSnapshots(entries, lane) ==> x.laneId == lane
    ensures Parsed(entries, TerminalSnapshotOf, LaneId, lane) == TerminalOnly(LaneSnapshots(entries, lane))
  {
    forall x | x in LaneSnapshots(entries, lane)
      ensures FromFold(x) && x.laneId == lane
    {
      LaneSnapshotFromFold(entries, lane, x);
    }
    TerminalSnapshots(entries, lane);
  }

  lemma TerminalParse(e: Entry, lane: Text)
    ensures var x := ForLane(SnapshotOf, LaneId, lane)(e);
      ForLane(TerminalSnapshotOf, LaneId, lane)(e) == if x.Some? && x.value.state.Terminal() then x else None
  {
    var s := SnapshotOf(e);
    assert TerminalSnapshotOf(e) == if s.Some? && s.value.state.Terminal() then s else None;
    assert ForLane(SnapshotOf, LaneId, lane)(e) == if s.Some? && LaneId(s.value) == lane then s else None;
  }

  lemma {:induction false} TerminalSnapshots(entries: seq<Entry>, lane: Text)
    ensures Parsed(entries, TerminalSnapshotOf, LaneId, lane) == TerminalOnly(LaneSnapshots(entries, lane))
  {
    if entries != [] {
      var front, e := entries[..|entries| - 1], entries[|entries| - 1];
      TerminalSnapshots(front, lane);
      TerminalParse(e, lane);
      var x := ForLane(SnapshotOf, LaneId, lane)(e);
      if x.Some? {
        TerminalOnlyStep(LaneSnapshots(front, lane), x.value);
      }
    }
  }

  /** The safety pass: walk `over` and let its values replace those of `base` where they win. */
  method Overwrite<V>(base: LaneMap<V>, over: LaneMap<V>, wins: (V, V) -> bool) returns (r: LaneMap<V>)
    requires base.Valid() && over.Valid()
    requires forall k :: k in over.at ==> k in base.at
    ensures r.Valid() && r.order == base.order
    ensures forall k :: r.Get(k) ==
              if k in over.at && wins(over.at[k], base.at[k]) then Some(over.at[k]) else base.Get(k)
  {
    r := base;
    for i := 0 to |over.order|
      invariant r.Valid() && r.order == base.order
      invariant forall k :: r.Get(k) ==
                  if k in over.order[..i] && wins(over.at[k], base.at[k]) then Some(over.at[k]) else base.Get(k)
    {
      var k := over.order[i];
      assert k !in over.order[..i] && r.Get(k) == base.Get(k);
      if wins(over.at[k], r.at[k]) {
        r := r.Set(k, over.at[k]);
      }
      assert over.order[..i + 1] == over.order[..i] + [k];
    }
    assert over.order[..|over.order|] == over.order;
  }

  /** `pickLatestLifecyclePerLane`: two picks, then the terminal pass over the first. */
  method PickLatestLifecyclePerLane(entries: seq<Entry>) returns (latest: LaneMap<Snapshot>)
    ensures latest.Valid()
    ensures latest.order == Lanes(entries, SnapshotOf, LaneId)
    ensures forall k :: latest.Get(k) == Chosen(LaneSnapshots(entries, k))
  {
    var first := PickPerLane(entries, SnapshotOf, LaneId, Prefer);
    var terminal := PickPerLane(entries, TerminalSnapshotOf, LaneId, Prefer);
    forall k
      ensures terminal.Get(k) == Latest(TerminalOnly(LaneSnapshots(entries, k)))
      ensures k in terminal.at ==> k in first.at
    {
      LaneSnapshotsFromFold(entries, k);
      assert first.Get(k) == Latest(LaneSnapshots(entries, k));
      FilterMembers((x: Snapshot) => x.state.Terminal(), LaneSnapshots(entries, k));
    }
    latest := Overwrite(first, terminal,
                        (t: Snapshot, active: Snapshot) => t.source.TaskResultFile? || Prefer(t, active));
  }

  // ---- Classification --------------------------------------------------------

  datatype Classification = Inconsistent | Stalled | ProgressingLate | ProgressingNormal | TerminalClass | UnknownClass
  {
    /** Position in the sort order, worst first. */
    function Rank(): int {
      match this
      case Inconsistent => 0
      case Stalled => 1
      case ProgressingLate => 2
      case ProgressingNormal => 3
      case TerminalClass => 4
      case UnknownClass => 5
    }
  }

  function Max(a: int, b: int): int { if a >= b then a else b }

  function Classify(x: Snapshot, observedAtMs: int, lateMs: int, stallMs: int): (Classification, int)
  {
    var elapsed := Max(0, observedAtMs - x.updatedAtMs);
    if x.state.Terminal() then (TerminalClass, Max(0, (observedAtMs - x.updatedAtMs) / 1000))
    else if !x.state.Active() then (UnknownClass, Max(0, (observedAtMs - x.updatedAtMs) / 1000))
    else if elapsed > stallMs then (Stalled, elapsed / 1000)
    else if elapsed > lateMs then (ProgressingLate, elapsed / 1000)
    else (ProgressingNormal, elapsed / 1000)
  }

  function LateThreshold(requested: Option<int>): (r: int)
    ensures r >= 10_000
  {
    if requested.Some? && requested.value > 0 then Max(requested.value, 10_000) else 60_000
  }

  function StallThreshold(requested: Option<int>, lateMs: int): (r: int)
    ensures r >= lateMs + 1_000
  {
    Max(if requested.Some? && requested.value > 0 then requested.value else 180_000, lateMs + 1_000)
  }

  predicate LaterProgressProvesActive(inconsistency: Option<Signal>, progress: Option<Signal>)
  {
    && inconsistency.Some? && progress.Some?
    && progress.value.observedAtMs > inconsistency.value.observedAtMs
    && progress.value.phase.Some? && !progress.value.phase.value.OtherPhase?
  }

  datatype FailureHint =
    | FinalizingWithoutTerminal | InvocationFailedHint | TransportTimeout | CorrelationLost | AbnormalExit

  function FailureHintFor(state: State): Option<FailureHint>
  {
    match state
    case InvocationFailed => Some(InvocationFailedHint)
    case Timeout => Some(TransportTimeout)
    case Orphaned => Some(CorrelationLost)
    case Aborted => Some(AbnormalExit)
    case _ => None
  }

  datatype Row = Row(
    laneId: Text, attemptId: Option<Text>, classification: Classification, lifecycleState: State,
    lastSignalAt: Text, lastSignalEvidenceId: Text, lastSignalSource: Source,
    lastHeartbeatSeq: Option<real>, expectedNext: Option<Stamp>, secondsPastExpected: Option<int>,
    secondsSinceLastSignal: int, abnormal: bool, failureHint: Option<FailureHint>)

  /** Later progress on an active lane replaces the snapshot's instant. */
  function SignalSnapshot(x: Snapshot, progress: Option<Signal>): (r: Snapshot)
  {
    if progress.Some? && x.state.Active() && progress.value.observedAtMs > x.updatedAtMs then
      x.(updatedAt := if progress.value.observedAt.Some? then progress.value.observedAt.value else x.updatedAt,
         updatedAtMs := progress.value.observedAtMs,
         evidenceId := progress.value.evidenceId,
         source := AgentTaskProgress)
    else x
  }

  function RowFor(x: Snapshot, progress: Option<Signal>, inconsistency: Option<Signal>,
                  observedAtMs: int, lateMs: int, stallMs: int): (r: Row)
  {
    var signal := SignalSnapshot(x, progress);
    var (base, seconds) := Classify(signal, observedAtMs, lateMs, stallMs);
    var suppressed := LaterProgressProvesActive(inconsistency, progress);
    var classification := if inconsistency.None? || suppressed then base else Inconsistent;
    var past := if x.expectedNext.Some? && !signal.source.AgentTaskProgress? && x.expectedNext.value.ms.Some?
                   && observedAtMs > x.expectedNext.value.ms.value
                then Some((observedAtMs - x.expectedNext.value.ms.value) / 1000) else None;
    Row(x.laneId, x.attemptId, classification, x.state, signal.updatedAt,
        if suppressed || inconsistency.None? then signal.evidenceId else inconsistency.value.evidenceId,
        signal.source, x.heartbeatSeq, x.expectedNext, past, seconds,
        classification.Rank() <= 2,
        if classification.Inconsistent? then Some(FinalizingWithoutTerminal) else FailureHintFor(x.state))
  }

  predicate RowAtMost(a: Row, b: Row)
  {
    a.classification.Rank() < b.classification.Rank()
    || (a.classification == b.classification && a.secondsSinceLastSignal >= b.secondsSinceLastSignal)
  }

  function WorstOf(rows: seq<Row>): (r: Classification)
  {
    if exists x :: x in rows && x.classification.Inconsistent? then Inconsistent
    else if exists x :: x in rows && x.classification.Stalled? then Stalled
    else if exists x :: x in rows && x.classification.ProgressingLate? then ProgressingLate
    else if exists x :: x in rows && x.classification.ProgressingNormal? then ProgressingNormal
    else if exists x :: x in rows && x.classification.TerminalClass? then TerminalClass
    else UnknownClass
  }

  datatype Totals = Totals(active: nat, late: nat, stalled: nat, inconsistent: nat, terminal: nat)
  {
    function Add(c: Classification): Totals {
      match c
      case ProgressingNormal => this.(active := active + 1)
      case ProgressingLate => this.(active := active + 1, late := late + 1)
      case Stalled => this.(active := active + 1, stalled := stalled + 1)
      case Inconsistent => this.(inconsistent := inconsistent + 1)
      case TerminalClass => this.(terminal := terminal + 1)
      case UnknownClass => this
    }
  }

  datatype Projection = Projection(lateMs: int, stallMs: int, totals: Totals, worst: Classification, rows: seq<Row>)

  // ---- What the projection should be -----------------------------------------

  function LaneProgress(entries: seq<Entry>, lane: Text): Option<Signal>
  {
    Fold(Newer, Parsed(entries, ProgressOf, SignalLane, lane))
  }

  function LaneInconsistency(entries: seq<Entry>, lane: Text): Option<Signal>
  {
    Fold(Newer, Parsed(entries, InconsistencyOf, SignalLane, lane))
  }

  /** The row of one lane, from that lane's evidence alone. */
  function LaneRow(entries: seq<Entry>, lane: Text, observedAtMs: int, lateMs: int, stallMs: int): (r: Row)
    requires Chosen(LaneSnapshots(entries, lane)).Some?
  {
    RowFor(Chosen(LaneSnapshots(entries, lane)).value, LaneProgress(entries, lane), LaneInconsistency(entries, lane),
           observedAtMs, lateMs, stallMs)
  }

  ghost predicate Covers(rows: seq<Row>, entries: seq<Entry>, observedAtMs: int, lateMs: int, stallMs: int)
  {
    var lanes := Lanes(entries, SnapshotOf, LaneId);
    && |rows| == |lanes|
    && forall i :: 0 <= i < |rows| ==>
         && Chosen(LaneSnapshots(entries, lanes[i])).Some?
         && rows[i] == LaneRow(entries, lanes[i], observedAtMs, lateMs, stallMs)
  }

  /** Classes counted once each, late and stalled lanes also as active ones. */
  ghost predicate TotalsMatch(t: Totals, rows: seq<Row>)
  {
    && t.late == Count(rows, ProgressingLate)
    && t.stalled == Count(rows, Stalled)
    && t.inconsistent == Count(rows, Inconsistent)
    && t.terminal == Count(rows, TerminalClass)
    && t.active == t.late + t.stalled + Count(rows, ProgressingNormal)
  }

  function Count(rows: seq<Row>, c: Classification): (r: nat)
  {
    |Filter((x: Row) => x.classification == c, rows)|
  }

  lemma CountStep(rows: seq<Row>, x: Row, c: Classification)
    ensures Count(rows + [x], c) == Count(rows, c) + if x.classification == c then 1 else 0
  {
  }

  lemma TotalsStep(t: Totals, rows: seq<Row>, x: Row)
    requires TotalsMatch(t, rows)
    ensures TotalsMatch(t.Add(x.classification), rows + [x])
  {
  }

  lemma TotalsSorted(t: Totals, rows: seq<Row>)
    requires TotalsMatch(t, rows)
    ensures TotalsMatch(t, Sort(RowAtMost, rows))
  {
    var sorted := Sort(RowAtMost, rows);
    SortPermutes(RowAtMost, rows);
    forall c ensures Count(sorted, c) == Count(rows, c) {
      var inClass := (x: Row) => x.classification == c;
      FilterPermutes(inClass, sorted, rows);
      PermutationMembers(Filter(inClass, sorted), Filter(inClass, rows));
    }
  }

  /** `projectFlowDeskLaneStallV1`. */
  method Project(entries: seq<Entry>, observedAt: Option<int>, lateRequest: Option<int>, stallRequest: Option<int>)
    returns (r: Projection)
    ensures r.lateMs == LateThreshold(lateRequest) && r.stallMs == StallThreshold(stallRequest, r.lateMs)
    ensures observedAt.None? ==> r.totals == Totals(0, 0, 0, 0, 0) && r.worst == UnknownClass && r.rows == []
    ensures observedAt.Some? ==>
              && TotalsMatch(r.totals, r.rows)
              && r.worst == WorstOf(r.rows)
              && exists unsorted :: Covers(unsorted, entries, observedAt.value, r.lateMs, r.stallMs)
                                    && r.rows == Sort(RowAtMost, unsorted)
  {
    var lateMs := LateThreshold(lateRequest);
    var stallMs := StallThreshold(stallRequest, lateMs);
    if observedAt.None? {
      return Projection(lateMs, stallMs, Totals(0, 0, 0, 0, 0), UnknownClass, []);
    }
    var latest := PickLatestLifecyclePerLane(entries);
    var inconsistencies := PickPerLane(entries, InconsistencyOf, SignalLane, Newer);
    var progresses := PickPerLane(entries, ProgressOf, SignalLane, Newer);
    var rowOf := (k: Text) requires k in latest.at =>
        RowFor(latest.at[k], progresses.Get(k), inconsistencies.Get(k), observedAt.value, lateMs, stallMs);
    var rows, totals := BuildRows(latest.order, rowOf);
    forall i | 0 <= i < |rows|
      ensures Chosen(LaneSnapshots(entries, latest.order[i])).Some?
      ensures rows[i] == LaneRow(entries, latest.order[i], observedAt.value, lateMs, stallMs)
    {
      var k := latest.order[i];
      assert latest.Get(k) == Some(latest.at[k]);
    }
    assert Covers(rows, entries, observedAt.value, lateMs, stallMs);
    TotalsSorted(totals, rows);
    var sorted := Sort(RowAtMost, rows);
    r := Projection(lateMs, stallMs, totals, WorstOf(sorted), sorted);
  }

  /** The projection loop: one row per lane, counted as it is pushed. */
  method BuildRows(order: seq<Text>, rowOf: Text --> Row) returns (rows: seq<Row>, totals: Totals)
    requires forall k :: k in order ==> rowOf.requires(k)
    ensures |rows| == |order| && forall i :: 0 <= i < |rows| ==> rows[i] == rowOf(order[i])
    ensures TotalsMatch(totals, rows)
  {
    rows, totals := [], Totals(0, 0, 0, 0, 0);
    for i := 0 to |order|
      invariant |rows| == i && forall j :: 0 <= j < i ==> rows[j] == rowOf(order[j])
      invariant TotalsMatch(totals, rows)
    {
      var row := rowOf(order[i]);
      TotalsStep(totals, rows, row);
      totals := totals.Add(row.classification);
      rows := rows + [row];
    }
  }
}
