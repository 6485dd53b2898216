/** How the lane stall projection chooses one snapshot per lane: the hand-written
    preference between two snapshots, the fold that applies it along the
    evidence, and when the outcome depends on the order of the evidence. */
module LaneOrder {
  import opened Collections
  import opened Texts
  import opened PreferenceFold

  datatype State =
    | Created | Running | AwaitingDependency | Cooldown
    | Complete | Incomplete | NoOutput | MissingVerdict | ToolCallsOnlyNoVerdict | Aborted
    | Timeout | LateOutput | Orphaned | InvocationFailed | TaskResult
    | OtherState(name: Text)
  {
    predicate Active() {
      Created? || Running? || AwaitingDependency? || Cooldown?
    }

    predicate Terminal() {
      !Active() && !OtherState?
    }

    function Priority(): int {
      if Terminal() then 3 else if Active() then 2 else 1
    }
  }

  datatype Source = LaneLifecycle | LaneHeartbeat | AgentTaskProgress | TaskResultFile

  datatype Snapshot = Snapshot(
    laneId: Text, attemptId: Option<Text>, state: State, updatedAt: Text, updatedAtMs: int,
    evidenceId: Text, source: Source, heartbeatSeq: Option<real>, expectedNext: Option<Stamp>)

  predicate Prefer(current: Snapshot, previous: Snapshot)
  {
    if current.state.TaskResult? && !previous.state.TaskResult? then true
    else if previous.state.TaskResult? && !current.state.TaskResult? then false
    else if current.updatedAtMs != previous.updatedAtMs then current.updatedAtMs > previous.updatedAtMs
    else if current.state.Priority() != previous.state.Priority() then
      current.state.Priority() > previous.state.Priority()
    else if current.source != previous.source then current.source.LaneLifecycle?
    else if current.source.LaneHeartbeat? && current.heartbeatSeq.Some? && previous.heartbeatSeq.Some? then
      current.heartbeatSeq.value > previous.heartbeatSeq.value
    else Less(previous.evidenceId, current.evidenceId)
  }

  /** The fold of `pickLatestSnapshotForLane` for one lane. */
  function Latest(s: seq<Snapshot>): (r: Option<Snapshot>)
    ensures r.None? <==> s == []
    ensures r.Some? ==> r.value in s
  {
    Fold(Prefer, s)
  }

  // ---- What holds for any evidence at all -----------------------------------

  /** Coarse rank: task result first, then the instant, then terminal over active
      over unknown. */
  predicate Outranks(a: Snapshot, b: Snapshot)
  {
    if a.state.TaskResult? != b.state.TaskResult? then a.state.TaskResult?
    else if a.updatedAtMs != b.updatedAtMs then a.updatedAtMs > b.updatedAtMs
    else a.state.Priority() > b.state.Priority()
  }

  predicate SameRank(a: Snapshot, b: Snapshot)
  {
    !Outranks(a, b) && !Outranks(b, a)
  }

  /** Nothing in the evidence outranks the winner, whatever the evidence is. */
  lemma WinnerRank(s: seq<Snapshot>)
    ensures forall x :: x in s ==> !Outranks(x, Latest(s).value)
  {
    WinnerNotOutranked(Outranks, Prefer, s);
  }

  /** For any evidence, well-formed or not, every rearrangement elects a snapshot
      with the same task-result flag, instant and priority. */
  lemma WinnerRankOrderFree(a: seq<Snapshot>, b: seq<Snapshot>)
    requires multiset(a) == multiset(b) && a != []
    ensures b != [] && SameRank(Latest(a).value, Latest(b).value)
    ensures Latest(a).value.updatedAtMs == Latest(b).value.updatedAtMs
    ensures Latest(a).value.state.Terminal() == Latest(b).value.state.Terminal()
    ensures Latest(a).value.state.Active() == Latest(b).value.state.Active()
    ensures Latest(a).value.state.TaskResult? == Latest(b).value.state.TaskResult?
  {
    PermutationMembers(a, b);
    WinnerRank(a);
    WinnerRank(b);
  }

  function TerminalOnly(s: seq<Snapshot>): (r: seq<Snapshot>)
  {
    Filter((x: Snapshot) => x.state.Terminal(), s)
  }

  lemma TerminalOnlyStep(front: seq<Snapshot>, x: Snapshot)
    ensures TerminalOnly(front + [x]) == if x.state.Terminal() then TerminalOnly(front) + [x] else TerminalOnly(front)
  {
  }

  /** What links the winner of the overall fold to the winner among terminals. */
  predicate Linked(held: Option<Snapshot>, terminal: Option<Snapshot>)
  {
    if held.None? then terminal.None?
    else
      && (held.value.state.Terminal() ==> terminal == held)
      && (terminal.Some? ==> terminal.value.state.Terminal() && !Outranks(terminal.value, held.value))
  }

  lemma LinkedStep(held: Option<Snapshot>, terminal: Option<Snapshot>, x: Snapshot)
    requires Linked(held, terminal)
    ensures Linked(Some(Keep(Prefer, held, x)),
                   if x.state.Terminal() then Some(Keep(Prefer, terminal, x)) else terminal)
  {
  }

  /** The second fold, over terminal snapshots alone, stays linked to the first. */
  lemma {:induction false} TerminalFold(s: seq<Snapshot>)
    ensures Linked(Latest(s), Latest(TerminalOnly(s)))
  {
    if s != [] {
      var front, x := s[..|s| - 1], s[|s| - 1];
      assert s == front + [x];
      TerminalFold(front);
      TerminalOnlyStep(front, x);
      LinkedStep(Latest(front), Latest(TerminalOnly(front)), x);
      FoldStep(Prefer, TerminalOnly(front), x);
    }
  }

  /** The two-fold choice for one lane: the overall winner, then the terminal
      "safety pass" that may overwrite it. */
  function Chosen(s: seq<Snapshot>): (r: Option<Snapshot>)
  {
    match Latest(TerminalOnly(s))
    case None => Latest(s)
    case Some(terminal) =>
      if terminal.source.TaskResultFile? then Some(terminal)
      else if Latest(s).Some? && Prefer(terminal, Latest(s).value) then Some(terminal)
      else Latest(s)
  }

  /** The three evidence classes the fold reads; a task-result file always yields
      the task-result state. */
  predicate FromFold(x: Snapshot)
  {
    !x.source.AgentTaskProgress? && (x.source.TaskResultFile? ==> x.state.TaskResult?)
  }

  ghost predicate AllFromFold(s: seq<Snapshot>)
  {
    forall x :: x in s ==> FromFold(x)
  }

  /** The safety pass never changes the choice: one fold would do. */
  lemma SafetyPassRedundant(s: seq<Snapshot>)
    requires AllFromFold(s)
    ensures Chosen(s) == Latest(s)
  {
    FilterMembers((x: Snapshot) => x.state.Terminal(), s);
    TerminalFold(s);
  }

  /** A task result, once present, decides the lane's state for good. */
  lemma TaskResultSticks(s: seq<Snapshot>)
    requires exists x :: x in s && x.state.TaskResult?
    ensures Latest(s).Some? && Latest(s).value.state.TaskResult?
  {
    WinnerRank(s);
  }

  // ---- Who is chosen ---------------------------------------------------------

  /** The two kinds of state by name. */
  lemma StateKinds(st: State)
    ensures st.Active() <==> st.Created? || st.Running? || st.AwaitingDependency? || st.Cooldown?
    ensures st.Terminal() <==>
      || st.Complete? || st.Incomplete? || st.NoOutput? || st.MissingVerdict? || st.ToolCallsOnlyNoVerdict?
      || st.Aborted? || st.Timeout? || st.LateOutput? || st.Orphaned? || st.InvocationFailed? || st.TaskResult?
  {
  }

  /** Nothing in the evidence is newer than `t`. */
  ghost predicate AtLatest(s: seq<Snapshot>, t: Snapshot)
  {
    t in s && forall x :: x in s ==> x.updatedAtMs <= t.updatedAtMs
  }

  /** For any evidence the choice falls on a terminal state exactly when there is a task
      result, or a terminal state at the latest instant: of two records of one instant the
      terminal one wins. */
  lemma ChosenTerminalIff(s: seq<Snapshot>)
    requires AllFromFold(s) && s != []
    ensures Chosen(s).Some? && Chosen(s).value in s
    ensures Chosen(s).value.state.Terminal()
       <==> (exists x :: x in s && x.state.TaskResult?) || exists t :: AtLatest(s, t) && t.state.Terminal()
  {
    SafetyPassRedundant(s);
    WinnerRank(s);
    var w := Chosen(s).value;
    if forall x :: x in s ==> !x.state.TaskResult? {
      assert AtLatest(s, w);
    }
  }

  /** And on an active state exactly when there is none of these, and an active state at
      the latest instant. */
  lemma ChosenActiveIff(s: seq<Snapshot>)
    requires AllFromFold(s) && s != []
    ensures Chosen(s).Some?
    ensures Chosen(s).value.state.Active()
       <==> && (forall x :: x in s ==> !x.state.TaskResult?)
            && (forall t :: AtLatest(s, t) ==> !t.state.Terminal())
            && exists t :: AtLatest(s, t) && t.state.Active()
  {
    SafetyPassRedundant(s);
    WinnerRank(s);
    var w := Chosen(s).value;
    if forall x :: x in s ==> !x.state.TaskResult? {
      assert AtLatest(s, w);
    }
  }

  /** The preference never points both ways, on any evidence. */
  lemma PreferAsymmetric(a: Snapshot, b: Snapshot)
    ensures !(Prefer(a, b) && Prefer(b, a))
  {
    LessAsymmetric(a.evidenceId, b.evidenceId);
  }

  lemma PreferAsymmetricOn(s: seq<Snapshot>)
    ensures AsymmetricOn(Prefer, s)
  {
    forall a, b | a in s && b in s && Prefer(a, b)
      ensures !Prefer(b, a)
    {
      PreferAsymmetric(a, b);
    }
  }

  /** The two-fold choice is the same for every order of the evidence. */
  ghost predicate ChoiceOrderFree(s: seq<Snapshot>)
  {
    forall t :: multiset(t) == multiset(s) ==> Chosen(t) == Chosen(s)
  }

  /** For any evidence, cycles and ties included, the choice is independent of the order
      exactly when one snapshot is preferred to every other. */
  lemma ChoiceOrderFreeIff(s: seq<Snapshot>)
    requires AllFromFold(s) && s != []
    ensures OrderFree(Prefer, s) <==> exists r :: Champion(Prefer, s, r)
    ensures ChoiceOrderFree(s) <==> exists r :: Champion(Prefer, s, r)
  {
    PreferAsymmetricOn(s);
    OrderFreeIff(Prefer, s);
    forall t | multiset(t) == multiset(s)
      ensures Chosen(t) == Fold(Prefer, t)
    {
      PermutationMembers(s, t);
      SafetyPassRedundant(t);
    }
    if t :| multiset(t) == multiset(s) && Chosen(t) != Chosen(s) {
      assert Fold(Prefer, t) != Fold(Prefer, s);
    }
  }

  // ---- When the preference is an order ---------------------------------------

  /** The snapshots agree in the key they are compared by last: the sequence number of two
      numbered heartbeats, and the evidence id of all others. */
  predicate SameLastKey(a: Snapshot, b: Snapshot)
  {
    if a.source.LaneHeartbeat? && a.heartbeatSeq.Some? && b.heartbeatSeq.Some? then
      a.heartbeatSeq.value == b.heartbeatSeq.value
    else a.evidenceId == b.evidenceId
  }

  /** Two numbered heartbeats of one rank, and one without a number between them. */
  predicate Straddles(a: Snapshot, u: Snapshot, b: Snapshot)
  {
    && a.source.LaneHeartbeat? && b.source.LaneHeartbeat? && u.source.LaneHeartbeat?
    && SameRank(a, b) && SameRank(a, u) && a.heartbeatSeq.Some? && b.heartbeatSeq.Some? && u.heartbeatSeq.None?
    && AtMost(b.evidenceId, u.evidenceId) && AtMost(u.evidenceId, a.evidenceId)
  }

  predicate NumbersAgree(a: Snapshot, u: Snapshot, b: Snapshot)
    requires a.heartbeatSeq.Some? && b.heartbeatSeq.Some?
  {
    || b.heartbeatSeq.value < a.heartbeatSeq.value
    || (b.heartbeatSeq.value == a.heartbeatSeq.value && a.evidenceId == u.evidenceId == b.evidenceId)
  }

  /** Where a heartbeat without a number stands between two numbered ones by id, the numbers
      agree with the ids. */
  ghost predicate Numbers(s: seq<Snapshot>)
  {
    forall a, u, b :: a in s && u in s && b in s && Straddles(a, u, b) ==> NumbersAgree(a, u, b)
  }

  /** Two snapshots of one rank and source, and a third of that rank from the other source
      that is no lifecycle record. */
  predicate Mingled(a: Snapshot, h: Snapshot, b: Snapshot)
  {
    && SameRank(a, h) && SameRank(h, b) && a.source == b.source && h.source != a.source
    && !a.source.LaneLifecycle? && !h.source.LaneLifecycle?
  }

  /** Where a heartbeat and a task-result file share a rank, the heartbeats of that rank
      agree in their last key, and so do the task results. */
  ghost predicate Mixed(s: seq<Snapshot>)
  {
    forall a, h, b :: a in s && h in s && b in s && Mingled(a, h, b) ==> SameLastKey(a, b)
  }

  predicate Tied(a: Snapshot, b: Snapshot)
  {
    !Prefer(a, b) && !Prefer(b, a)
  }

  /** Among snapshots of one rank and source the last key decides. */
  lemma TiedByLastKey(a: Snapshot, b: Snapshot)
    requires FromFold(a) && FromFold(b) && SameRank(a, b) && a.source == b.source
    ensures Tied(a, b) <==> SameLastKey(a, b)
  {
    LessTotal(a.evidenceId, b.evidenceId);
    LessAsymmetric(a.evidenceId, b.evidenceId);
  }

  /** "Not preferred" is transitive under the two conditions. */
  lemma NotPreferredTransitive(s: seq<Snapshot>, a: Snapshot, b: Snapshot, c: Snapshot)
    requires AllFromFold(s) && Numbers(s) && Mixed(s) && a in s && b in s && c in s
    requires !Prefer(a, b) && !Prefer(b, c)
    ensures !Prefer(a, c)
  {
    LessAsymmetric(a.evidenceId, a.evidenceId);
    LessAsymmetric(a.evidenceId, c.evidenceId);
    if AtMost(a.evidenceId, b.evidenceId) && AtMost(b.evidenceId, c.evidenceId) {
      AtMostTransitive(a.evidenceId, b.evidenceId, c.evidenceId);
    }
    assert Mingled(a, b, c) ==> SameLastKey(a, c);
    assert Straddles(c, b, a) ==> NumbersAgree(c, b, a);
    assert Straddles(b, a, c) ==> NumbersAgree(b, a, c);
    assert Straddles(a, c, b) ==> NumbersAgree(a, c, b);
  }

  /** An order needs the numbers: a straddling heartbeat compares by id on both sides. */
  lemma OrderNumbers(s: seq<Snapshot>, a: Snapshot, u: Snapshot, b: Snapshot)
    requires AllFromFold(s) && WeakOrderOn(Prefer, s) && a in s && u in s && b in s && Straddles(a, u, b)
    ensures NumbersAgree(a, u, b)
  {
    LessTotal(a.evidenceId, u.evidenceId);
    LessTotal(u.evidenceId, b.evidenceId);
    assert !Prefer(b, u) && !Prefer(u, a);
    assert !Prefer(b, a);
    if !Prefer(a, b) {
      assert !Prefer(u, b) && !Prefer(a, u);
    }
  }

  /** On any evidence the preference is a strict weak order exactly when heartbeats without
      a number do not contradict the numbers around them, and heartbeats that share a rank
      with task results leave nothing to compare. */
  lemma WeakOrderIff(s: seq<Snapshot>)
    requires AllFromFold(s)
    ensures WeakOrderOn(Prefer, s) <==> Numbers(s) && Mixed(s)
  {
    PreferAsymmetricOn(s);
    if Numbers(s) && Mixed(s) {
      forall a, b, c | a in s && b in s && c in s && !Prefer(a, b) && !Prefer(b, c)
        ensures !Prefer(a, c)
      {
        NotPreferredTransitive(s, a, b, c);
      }
    }
    if WeakOrderOn(Prefer, s) {
      forall a, u, b | a in s && u in s && b in s && Straddles(a, u, b)
        ensures NumbersAgree(a, u, b)
      {
        OrderNumbers(s, a, u, b);
      }
      forall a, h, b | a in s && h in s && b in s && Mingled(a, h, b)
        ensures SameLastKey(a, b)
      {
        TiedByLastKey(a, b);
        assert Tied(a, h) && Tied(h, b);
      }
    }
  }

  // ---- What needs well-formed evidence --------------------------------------

  /** What the heartbeat validator adds: a sequence number, and a state that is not
      the task-result marker. */
  predicate WellFormed(x: Snapshot)
  {
    FromFold(x) && (x.source.LaneHeartbeat? ==> x.heartbeatSeq.Some? && !x.state.TaskResult?)
  }

  ghost predicate AllWellFormed(s: seq<Snapshot>)
  {
    forall x :: x in s ==> WellFormed(x)
  }

  lemma WellFormedWeakOrder(s: seq<Snapshot>)
    requires AllWellFormed(s)
    ensures WeakOrderOn(Prefer, s)
  {
    WeakOrderIff(s);
  }

  /** On well-formed snapshots "not preferred" is transitive; with asymmetry this
      makes the preference a strict weak order. */
  lemma PreferNegativelyTransitive(a: Snapshot, b: Snapshot, c: Snapshot)
    requires WellFormed(a) && WellFormed(b) && WellFormed(c)
    requires !Prefer(a, b) && !Prefer(b, c)
    ensures !Prefer(a, c)
  {
    WellFormedWeakOrder([a, b, c]);
    assert a in [a, b, c] && b in [a, b, c] && c in [a, b, c];
  }

  lemma PreferStrictWeakOrder(a: Snapshot, b: Snapshot, c: Snapshot)
    requires WellFormed(a) && WellFormed(b) && WellFormed(c)
    ensures !Prefer(a, a)
    ensures Prefer(a, b) && Prefer(b, c) ==> Prefer(a, c)
    ensures Tied(a, b) && Tied(b, c) ==> Tied(a, c)
  {
    PreferAsymmetric(a, a);
    PreferAsymmetric(a, b);
    PreferAsymmetric(b, c);
    if Prefer(a, b) && Prefer(b, c) && !Prefer(a, c) {
      PreferNegativelyTransitive(a, c, b);
    }
    if Tied(a, b) && Tied(b, c) {
      PreferNegativelyTransitive(a, b, c);
      PreferNegativelyTransitive(c, b, a);
    }
  }

  /** On well-formed evidence the choice is independent of the order exactly when
      only one snapshot is undominated. */
  lemma WellFormedOrderFreeIff(s: seq<Snapshot>)
    requires AllWellFormed(s) && s != []
    ensures ChoiceOrderFree(s) <==> forall a, b :: Undominated(Prefer, s, a) && Undominated(Prefer, s, b) ==> a == b
  {
    WellFormedWeakOrder(s);
    ChoiceOrderFreeIff(s);
    ChampionIffUndominatedUnique(Prefer, s);
  }

  /** One task-result flag, instant and kind of state. */
  predicate SamePlace(a: Snapshot, b: Snapshot)
  {
    && a.state.TaskResult? == b.state.TaskResult? && a.updatedAtMs == b.updatedAtMs
    && a.state.Terminal() == b.state.Terminal() && a.state.Active() == b.state.Active()
  }

  /** On well-formed evidence the chosen snapshot is, among those of its place, a lifecycle
      record if there is one, and within its source the last by sequence number or id. */
  lemma ChosenIsLast(s: seq<Snapshot>, x: Snapshot)
    requires AllWellFormed(s) && x in s
    ensures Chosen(s).Some? && Chosen(s).value in s
    ensures var w := Chosen(s).value;
      SamePlace(x, w) ==>
        && (x.source.LaneLifecycle? ==> w.source.LaneLifecycle?)
        && (x.source == w.source ==>
              if x.source.LaneHeartbeat? then x.heartbeatSeq.value <= w.heartbeatSeq.value
              else !Less(w.evidenceId, x.evidenceId))
  {
    SafetyPassRedundant(s);
    WellFormedWeakOrder(s);
    WinnerUndominated(Prefer, s);
  }

  /** Snapshots of one lane that the preference compares by their last key carry
      different values of it: distinct sequence numbers for heartbeats of one
      instant, distinct evidence ids within one other evidence class. */
  ghost predicate Discriminated(s: seq<Snapshot>)
  {
    forall a, b :: a in s && b in s && a != b && SameRank(a, b) && a.source == b.source ==>
      if a.source.LaneHeartbeat? then a.heartbeatSeq != b.heartbeatSeq else a.evidenceId != b.evidenceId
  }

  lemma UndominatedAgree(a: Snapshot, b: Snapshot)
    requires WellFormed(a) && WellFormed(b) && Tied(a, b)
    requires a != b && SameRank(a, b) && a.source == b.source ==>
      if a.source.LaneHeartbeat? then a.heartbeatSeq != b.heartbeatSeq else a.evidenceId != b.evidenceId
    ensures a == b
  {
    LessTotal(a.evidenceId, b.evidenceId);
  }

  /** Well-formed, discriminated evidence: every rearrangement gives the same choice. */
  lemma ChoicePermutationInvariant(s: seq<Snapshot>, t: seq<Snapshot>)
    requires multiset(s) == multiset(t)
    requires AllWellFormed(s) && Discriminated(s)
    ensures Chosen(s) == Chosen(t) && Latest(s) == Latest(t)
  {
    PermutationMembers(s, t);
    SafetyPassRedundant(t);
    SafetyPassRedundant(s);
    if s != [] {
      forall a, b | Undominated(Prefer, s, a) && Undominated(Prefer, s, b)
        ensures a == b
      {
        UndominatedAgree(a, b);
      }
      WellFormedOrderFreeIff(s);
    }
  }

  // ---- Why the premises are there -------------------------------------------

  function Beat(seqNo: Option<real>, id: Text, state: State): (r: Snapshot)
  {
    Snapshot([1], None, state, [], 0, id, LaneHeartbeat, seqNo, None)
  }

  /** One heartbeat without a sequence number closes a preference cycle, and the
      three rotations of the same evidence elect three different snapshots. */
  lemma HeartbeatCycle()
    ensures
      var a, b, c := Beat(Some(1.0), [99], Running), Beat(None, [98], Running), Beat(Some(2.0), [97], Running);
      && Prefer(a, b) && Prefer(b, c) && Prefer(c, a)
      && Latest([a, b, c]) == Some(c) && Latest([b, c, a]) == Some(a) && Latest([c, a, b]) == Some(b)
  {
    var a, b, c := Beat(Some(1.0), [99], Running), Beat(None, [98], Running), Beat(Some(2.0), [97], Running);
    FoldOfThree(Prefer, a, b, c);
    FoldOfThree(Prefer, b, c, a);
    FoldOfThree(Prefer, c, a, b);
  }

  lemma FoldOfThree<V>(prefer: (V, V) -> bool, x: V, y: V, z: V)
    requires !prefer(y, x) && prefer(z, x)
    ensures Fold(prefer, [x, y, z]) == Some(z)
  {
  }

  /** A heartbeat claiming the task-result state is tied with two task results
      that are not tied with each other. */
  lemma TaskResultHeartbeatBreaksTies()
    ensures
      var r1 := Snapshot([1], None, TaskResult, [], 0, [97], TaskResultFile, None, None);
      var r2 := r1.(evidenceId := [98]);
      var h := Beat(Some(1.0), [99], TaskResult);
      Tied(r1, h) && Tied(h, r2) && !Tied(r1, r2)
  {
  }
}
