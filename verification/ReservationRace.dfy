/** Several contenders over one stored ledger: each reads it, prepares a reservation or an
    update on what it read, and stores the result - comparing first, or not. */
module ReservationRace {
  import opened Collections
  import opened Texts
  import opened Checks
  import opened DispatchLedger

  /** The stored ledger, what each contender last read, and the reservations stored so far. */
  datatype Race = Race(cell: Option<Ledger>, held: map<nat, Option<Ledger>>, won: seq<Reservation>)

  ghost predicate Reads(before: Race, after: Race, i: nat)
  {
    after == before.(held := before.held[i := before.cell])
  }

  /** `next` was prepared on the ledger `held`: by a reservation, or by an update. */
  ghost predicate Prepared(c: FieldChecks, held: Option<Ledger>, next: Option<Ledger>, q: Option<Reservation>)
  {
    match q
    case Some(r) => ReserveSpec(c, r, held).Some? && next == ReserveSpec(c, r, held)
    case None => exists u: Update :: UpdateStep(c, u, held, next)
  }

  function Stored(before: Race, next: Option<Ledger>, q: Option<Reservation>): Race
  {
    before.(cell := next, won := if q.Some? then before.won + [q.value] else before.won)
  }

  /** Storing whatever was prepared. */
  ghost predicate Writes(c: FieldChecks, before: Race, after: Race, i: nat, next: Option<Ledger>,
                         q: Option<Reservation>)
  {
    i in before.held && Prepared(c, before.held[i], next, q) && after == Stored(before, next, q)
  }

  /** Storing it only over the very ledger it was prepared on. */
  ghost predicate Swaps(c: FieldChecks, before: Race, after: Race, i: nat, next: Option<Ledger>,
                        q: Option<Reservation>)
  {
    if i in before.held && before.cell == before.held[i] then Writes(c, before, after, i, next, q) else after == before
  }

  ghost predicate SwapStep(c: FieldChecks, before: Race, after: Race)
  {
    (exists i :: Reads(before, after, i)) || (exists i, next, q :: Swaps(c, before, after, i, next, q))
  }

  ghost predicate BlindStep(c: FieldChecks, before: Race, after: Race)
  {
    (exists i :: Reads(before, after, i)) || (exists i, next, q :: Writes(c, before, after, i, next, q))
  }

  ghost predicate Starts(trace: seq<Race>)
  {
    trace != [] && trace[0].held == map[] && trace[0].won == []
  }

  ghost predicate SwapRun(c: FieldChecks, trace: seq<Race>)
  {
    Starts(trace) && forall k :: 0 <= k < |trace| - 1 ==> SwapStep(c, trace[k], trace[k + 1])
  }

  ghost predicate BlindRun(c: FieldChecks, trace: seq<Race>)
  {
    Starts(trace) && forall k :: 0 <= k < |trace| - 1 ==> BlindStep(c, trace[k], trace[k + 1])
  }

  // ---- With the comparison ---------------------------------------------------

  function CellOf(r: Race): Option<Ledger> { r.cell }

  lemma SwapMoves(c: FieldChecks, before: Race, after: Race)
    requires SwapStep(c, before, after)
    ensures StepOk(c, before.cell, after.cell)
  {
    if i, next, q :| Swaps(c, before, after, i, next, q) && after.cell != before.cell {
      if q.Some? {
        assert ReserveSpec(c, q.value, before.cell).Some?;
      } else {
        var u: Update :| UpdateStep(c, u, before.cell, next);
      }
    }
  }

  /** With compare-and-swap the race refines the run of one ledger: what is stored, read as
      a sequence of ledgers, is a run, so whatever holds of every run holds of the race. */
  lemma SwapRunIsLedgerRun(c: FieldChecks, trace: seq<Race>)
    requires SwapRun(c, trace)
    ensures Run(c, Map(CellOf, trace))
  {
    var cells := Map(CellOf, trace);
    forall k | 0 <= k < |cells| - 1
      ensures StepOk(c, cells[k], cells[k + 1])
    {
      SwapMoves(c, trace[k], trace[k + 1]);
    }
  }

  ghost predicate Recorded(ledger: Option<Ledger>, q: Reservation)
  {
    AttemptRecorded(EntriesOf(ledger), q.attemptId) && KeyRecorded(EntriesOf(ledger), q.key)
  }

  /** Every stored reservation is in the ledger, and no two share an attempt or a key. */
  ghost predicate WonOnce(r: Race)
  {
    && (forall n :: 0 <= n < |r.won| ==> Recorded(r.cell, r.won[n]))
    && (forall n, m :: 0 <= n < m < |r.won| ==>
          r.won[n].attemptId != r.won[m].attemptId && r.won[n].key != r.won[m].key)
  }

  lemma SwapKeepsWonOnce(c: FieldChecks, before: Race, after: Race)
    requires SwapStep(c, before, after) && Sound(c, before.cell) && WonOnce(before)
    ensures WonOnce(after)
  {
    SwapMoves(c, before, after);
    StepSound(c, before.cell, after.cell);
    forall n | 0 <= n < |before.won|
      ensures Recorded(after.cell, before.won[n])
    {
      assert Recorded(before.cell, before.won[n]);
      ExtendsRecorded(EntriesOf(before.cell), EntriesOf(after.cell), before.won[n].attemptId, before.won[n].key);
    }
    if after.won != before.won {
      var i, next, q :| Swaps(c, before, after, i, next, q);
      NewlyWon(c, before, after, q.value);
    }
  }

  lemma NewlyWon(c: FieldChecks, before: Race, after: Race, q: Reservation)
    requires WonOnce(before) && ReserveSpec(c, q, before.cell).Some?
    requires after.cell == ReserveSpec(c, q, before.cell) && after.won == before.won + [q]
    ensures Recorded(after.cell, q)
    ensures forall n :: 0 <= n < |before.won| ==> before.won[n].attemptId != q.attemptId && before.won[n].key != q.key
  {
    RecordedStep(EntriesOf(before.cell), LedgerEntry(q.attemptId, q.key, Reserved, q.at), q.attemptId, q.key);
    forall n | 0 <= n < |before.won|
      ensures before.won[n].attemptId != q.attemptId && before.won[n].key != q.key
    {
      assert Recorded(before.cell, before.won[n]);
    }
  }

  /** However many contenders interleave, at most one reservation of an attempt, and at most
      one of a key, is ever stored; and every stored one stays in the ledger. */
  lemma {:induction false} OneReservation(c: FieldChecks, trace: seq<Race>, k: nat)
    requires SwapRun(c, trace) && Sound(c, trace[0].cell) && k < |trace|
    ensures Sound(c, trace[k].cell) && WonOnce(trace[k])
  {
    SwapRunIsLedgerRun(c, trace);
    RunSound(c, Map(CellOf, trace), 0, k);
    if k > 0 {
      OneReservation(c, trace, k - 1);
      SwapKeepsWonOnce(c, trace[k - 1], trace[k]);
    }
  }

  // ---- Without it ------------------------------------------------------------

  /** `now` is `first`, or was prepared from it through any chain of ledgers. */
  ghost predicate Descends(c: FieldChecks, first: Option<Ledger>, now: Option<Ledger>)
  {
    && Extends(EntriesOf(first), EntriesOf(now))
    && (first.Some? && now != first ==> now.Some? && ValidLedger(c, first.value, now.value.workflowId))
  }

  /** What can be reserved on a descendant could be reserved at first. */
  lemma PreparedDescends(c: FieldChecks, first: Option<Ledger>, held: Option<Ledger>, next: Option<Ledger>,
                         q: Option<Reservation>)
    requires Descends(c, first, held) && Prepared(c, held, next, q)
    ensures Descends(c, first, next)
    ensures q.Some? ==> ReserveSpec(c, q.value, first).Some?
  {
    if q.Some? {
      ExtendsRecorded(EntriesOf(first), EntriesOf(held), q.value.attemptId, q.value.key);
      ExtendsTransitive(EntriesOf(first), EntriesOf(held), EntriesOf(next));
    } else {
      var u: Update :| UpdateStep(c, u, held, next);
      ExtendsTransitive(EntriesOf(first), EntriesOf(held), EntriesOf(next));
    }
  }

  ghost predicate AllDescend(c: FieldChecks, first: Option<Ledger>, r: Race)
  {
    && Descends(c, first, r.cell)
    && (forall i :: i in r.held ==> Descends(c, first, r.held[i]))
    && (forall n :: 0 <= n < |r.won| ==> ReserveSpec(c, r.won[n], first).Some?)
  }

  lemma BlindStepDescends(c: FieldChecks, first: Option<Ledger>, before: Race, after: Race)
    requires AllDescend(c, first, before) && BlindStep(c, before, after)
    ensures AllDescend(c, first, after)
  {
    if i, next, q :| Writes(c, before, after, i, next, q) {
      PreparedDescends(c, first, before.held[i], next, q);
    }
  }

  lemma {:induction false} BlindDescends(c: FieldChecks, trace: seq<Race>, k: nat)
    requires BlindRun(c, trace) && k < |trace|
    ensures AllDescend(c, trace[0].cell, trace[k])
  {
    if k > 0 {
      BlindDescends(c, trace, k - 1);
      BlindStepDescends(c, trace[0].cell, trace[k - 1], trace[k]);
    }
  }

  /** Two contenders read one ledger and both store. */
  lemma BothStore(c: FieldChecks, ledger: Option<Ledger>, p: Reservation, q: Reservation) returns (trace: seq<Race>)
    requires ReserveSpec(c, p, ledger).Some? && ReserveSpec(c, q, ledger).Some?
    ensures BlindRun(c, trace) && |trace| == 5 && trace[0].cell == ledger
    ensures trace[4].won == [p, q] && trace[4].cell == ReserveSpec(c, q, ledger)
  {
    var start := Race(ledger, map[], []);
    var one := start.(held := start.held[0 := ledger]);
    var both := one.(held := one.held[1 := ledger]);
    var first := Stored(both, ReserveSpec(c, p, ledger), Some(p));
    var second := Stored(first, ReserveSpec(c, q, ledger), Some(q));
    trace := [start, one, both, first, second];
    assert Reads(start, one, 0) && Reads(one, both, 1);
    assert Writes(c, both, first, 0, ReserveSpec(c, p, ledger), Some(p));
    assert Writes(c, first, second, 1, ReserveSpec(c, q, ledger), Some(q));
    assert BlindStep(c, start, one) && BlindStep(c, one, both);
    assert BlindStep(c, both, first) && BlindStep(c, first, second);
  }

  /** The attempt is reserved twice in the run. */
  ghost predicate ReservedTwice(c: FieldChecks, ledger: Option<Ledger>, attemptId: Text, trace: seq<Race>)
  {
    && BlindRun(c, trace) && trace[0].cell == ledger
    && var won := trace[|trace| - 1].won;
       exists n, m :: 0 <= n < m < |won| && won[n].attemptId == attemptId && won[m].attemptId == attemptId
  }

  /** Without the comparison an attempt can be reserved twice exactly when it can be
      reserved at all. */
  lemma ReservedTwiceIff(c: FieldChecks, ledger: Option<Ledger>, attemptId: Text)
    ensures (exists trace: seq<Race> :: ReservedTwice(c, ledger, attemptId, trace))
       <==> exists q: Reservation :: q.attemptId == attemptId && ReserveSpec(c, q, ledger).Some?
  {
    if q: Reservation :| q.attemptId == attemptId && ReserveSpec(c, q, ledger).Some? {
      var trace := BothStore(c, ledger, q, q);
      assert trace[4].won[0] == q && trace[4].won[1] == q;
      assert ReservedTwice(c, ledger, attemptId, trace);
    }
    if trace: seq<Race> :| ReservedTwice(c, ledger, attemptId, trace) {
      var last := trace[|trace| - 1];
      BlindDescends(c, trace, |trace| - 1);
      var n, m :| 0 <= n < m < |last.won| && last.won[n].attemptId == attemptId && last.won[m].attemptId == attemptId;
      assert ReserveSpec(c, last.won[n], ledger).Some?;
    }
  }

  // ---- Forgetting ------------------------------------------------------------

  /** The run stores `p`, and at its end the replay check is clear for `p` again. */
  ghost predicate Forgets(c: FieldChecks, ledger: Option<Ledger>, p: Reservation, trace: seq<Race>)
  {
    && BlindRun(c, trace) && trace[0].cell == ledger && p in trace[|trace| - 1].won
    && ReplaySafe(c, p.workflowId, p.attemptId, p.key, trace[|trace| - 1].cell)
  }

  /** A reservation of another attempt under another key can be prepared on the ledger. */
  ghost predicate OtherReservable(c: FieldChecks, ledger: Option<Ledger>, p: Reservation)
  {
    exists q :: && ReserveSpec(c, q, ledger).Some? && q.workflowId == p.workflowId
                && q.attemptId != p.attemptId && q.key != p.key
  }

  /** Some update can be prepared on the ledger. */
  ghost predicate Updatable(c: FieldChecks, ledger: Option<Ledger>)
  {
    exists u: Update, next :: UpdateStep(c, u, ledger, next)
  }

  /** Somebody prepared something on the first ledger that shows in `now`. */
  ghost predicate Touched(c: FieldChecks, first: Option<Ledger>, now: Option<Ledger>)
  {
    Updatable(c, first) || exists q :: ReserveSpec(c, q, first).Some? && ShowsIn(now, q)
  }

  ghost predicate ShowsIn(now: Option<Ledger>, q: Reservation)
  {
    now.Some? && now.value.workflowId == q.workflowId && Recorded(now, q)
  }

  ghost predicate AllTouched(c: FieldChecks, first: Option<Ledger>, r: Race)
  {
    && ((r.cell == first && r.won == []) || Touched(c, first, r.cell))
    && forall i :: i in r.held ==> r.held[i] == first || Touched(c, first, r.held[i])
  }

  lemma PreparedTouches(c: FieldChecks, first: Option<Ledger>, held: Option<Ledger>, next: Option<Ledger>,
                        q: Option<Reservation>)
    requires (held == first || Touched(c, first, held)) && Prepared(c, held, next, q)
    ensures Touched(c, first, next)
  {
    if held == first {
      if q.Some? {
        RecordedStep(EntriesOf(first), LedgerEntry(q.value.attemptId, q.value.key, Reserved, q.value.at),
                     q.value.attemptId, q.value.key);
        assert ShowsIn(next, q.value);
      }
    } else if !Updatable(c, first) {
      var p :| ReserveSpec(c, p, first).Some? && ShowsIn(held, p);
      PreparedShows(c, held, next, q, p);
    }
  }

  lemma PreparedShows(c: FieldChecks, held: Option<Ledger>, next: Option<Ledger>, q: Option<Reservation>,
                      p: Reservation)
    requires Prepared(c, held, next, q) && ShowsIn(held, p)
    ensures ShowsIn(next, p)
  {
    assert Extends(EntriesOf(held), EntriesOf(next));
    ExtendsRecorded(EntriesOf(held), EntriesOf(next), p.attemptId, p.key);
  }

  lemma BlindStepTouches(c: FieldChecks, first: Option<Ledger>, before: Race, after: Race)
    requires AllTouched(c, first, before) && BlindStep(c, before, after)
    ensures AllTouched(c, first, after)
  {
    if i, next, q :| Writes(c, before, after, i, next, q) {
      PreparedTouches(c, first, before.held[i], next, q);
    }
  }

  lemma {:induction false} BlindTouches(c: FieldChecks, trace: seq<Race>, k: nat)
    requires BlindRun(c, trace) && k < |trace|
    ensures AllTouched(c, trace[0].cell, trace[k])
  {
    if k > 0 {
      BlindTouches(c, trace, k - 1);
      BlindStepTouches(c, trace[0].cell, trace[k - 1], trace[k]);
    }
  }

  /** A second reservation prepared on the same ledger erases the first. */
  lemma BlindForgets(c: FieldChecks, ledger: Option<Ledger>, p: Reservation, q: Reservation) returns (trace: seq<Race>)
    requires ReserveSpec(c, p, ledger).Some? && ReserveSpec(c, q, ledger).Some?
    requires p.workflowId == q.workflowId && p.attemptId != q.attemptId && p.key != q.key
    ensures Forgets(c, ledger, p, trace)
  {
    trace := BothStore(c, ledger, p, q);
    assert trace[4].won[0] == p;
    var entries, last := EntriesOf(ledger), LedgerEntry(q.attemptId, q.key, Reserved, q.at);
    RecordedStep(entries, last, p.attemptId, p.key);
    SuccessorValid(c, q, ledger);
  }

  lemma SuccessorValid(c: FieldChecks, q: Reservation, ledger: Option<Ledger>)
    requires ReserveSpec(c, q, ledger).Some?
    ensures ValidLedger(c, ReserveSpec(c, q, ledger).value, q.workflowId)
  {
    var base := if ledger.Some? then ledger.value else EmptyLedger(q.workflowId, q.snapshotRef, q.at);
    CandidateValid(c, q, base);
  }

  /** And so does an update prepared on it. */
  lemma UpdateForgets(c: FieldChecks, ledger: Option<Ledger>, p: Reservation, u: Update, next: Option<Ledger>)
    returns (trace: seq<Race>)
    requires ReserveSpec(c, p, ledger).Some? && UpdateStep(c, u, ledger, next)
    ensures Forgets(c, ledger, p, trace)
  {
    var start := Race(ledger, map[], []);
    var one := start.(held := start.held[0 := ledger]);
    var both := one.(held := one.held[1 := ledger]);
    var first := Stored(both, ReserveSpec(c, p, ledger), Some(p));
    var second := Stored(first, next, None);
    trace := [start, one, both, first, second];
    assert Reads(start, one, 0) && Reads(one, both, 1);
    assert Writes(c, both, first, 0, ReserveSpec(c, p, ledger), Some(p));
    assert Prepared(c, ledger, next, None);
    assert Writes(c, first, second, 1, next, None);
    assert BlindStep(c, start, one) && BlindStep(c, one, both);
    assert BlindStep(c, both, first) && BlindStep(c, first, second);
    assert first.won[0] == p;
    AdvancedKeeps(u, ledger.value.entries, next.value.entries, p);
  }

  lemma AdvancedKeeps(u: Update, before: seq<LedgerEntry>, after: seq<LedgerEntry>, p: Reservation)
    requires Advanced(u, before, after)
    ensures AttemptRecorded(after, p.attemptId) ==> AttemptRecorded(before, p.attemptId)
    ensures KeyRecorded(after, p.key) ==> KeyRecorded(before, p.key)
  {
    if i :| 0 <= i < |after| && after[i].attemptId == p.attemptId {
      assert before[i].attemptId == p.attemptId;
    }
    if i :| 0 <= i < |after| && after[i].key == p.key {
      assert before[i].key == p.key;
    }
  }

  /** Without the comparison a stored reservation can be forgotten exactly when it can be
      made at all, and something else - a reservation of another attempt and key, or any
      update - can be prepared on the same ledger. */
  lemma ForgottenIff(c: FieldChecks, ledger: Option<Ledger>, p: Reservation)
    ensures (exists trace: seq<Race> :: Forgets(c, ledger, p, trace))
       <==> ReserveSpec(c, p, ledger).Some? && (OtherReservable(c, ledger, p) || Updatable(c, ledger))
  {
    if trace: seq<Race> :| Forgets(c, ledger, p, trace) {
      ForgottenNeeds(c, ledger, p, trace);
    }
    if ReserveSpec(c, p, ledger).Some? {
      if OtherReservable(c, ledger, p) {
        var q :| && ReserveSpec(c, q, ledger).Some? && q.workflowId == p.workflowId
                 && q.attemptId != p.attemptId && q.key != p.key;
        var trace := BlindForgets(c, ledger, p, q);
      } else if Updatable(c, ledger) {
        var u: Update, next :| UpdateStep(c, u, ledger, next);
        var trace := UpdateForgets(c, ledger, p, u, next);
      }
    }
  }

  lemma ForgottenNeeds(c: FieldChecks, ledger: Option<Ledger>, p: Reservation, trace: seq<Race>)
    requires Forgets(c, ledger, p, trace)
    ensures ReserveSpec(c, p, ledger).Some? && (OtherReservable(c, ledger, p) || Updatable(c, ledger))
  {
    var last := trace[|trace| - 1];
    BlindDescends(c, trace, |trace| - 1);
    BlindTouches(c, trace, |trace| - 1);
    var n :| 0 <= n < |last.won| && last.won[n] == p;
    if !Updatable(c, ledger) {
      var q :| ReserveSpec(c, q, ledger).Some? && ShowsIn(last.cell, q);
      assert q.attemptId != p.attemptId && q.key != p.key;
    }
  }
}
