/** The directory lock of the compaction runner as interleaved steps: creating the lock
    directory and writing its time stamp are two steps, a missing stamp counts as
    stale, breaking a stale lock is a check followed later by a removal, and releasing
    removes whatever lock is there. */
module CompactionLock {
  import opened Collections

  type Path = nat

  const STALE_MS := 60_000

  datatype Lock = Free | Held(stamp: Option<int>)

  datatype Round = First | Second

  /** Where a contender stands. `stale` is the list it carries from its first lock. */
  datatype Phase =
    | Waiting(round: Round, stale: set<Path>)
    | Stamping(round: Round, stale: set<Path>, again: bool)
    | Checking(round: Round, stale: set<Path>)
    | Breaking(round: Round, stale: set<Path>)
    | Retrying(round: Round, stale: set<Path>)
    | Owning(round: Round, stale: set<Path>)
    | Listed(stale: set<Path>)
    | Archiving(stale: set<Path>)
    | Failed(round: Round)
    | Done

  /** `listed` remembers what each contender found older than its cutoff, `deleted` who
      deleted what. */
  datatype System = System(
    lock: Lock, files: map<Path, int>, phases: seq<Phase>, cutoffs: seq<int>,
    listed: seq<map<Path, int>>, deleted: seq<(nat, Path)>)

  /** One step of a contender; `now` and `stamp` are whatever its clock or caller says. */
  datatype Act =
    | MakeDir | WriteStamp(stamp: int) | Check(now: int) | Remove | MakeDirAgain | GiveUp
    | List | ReleaseFirst | Reacquire | Finish | Delete(path: Path) | External(files: map<Path, int>)

  predicate LooksStale(lock: Lock, now: int)
  {
    lock.Free? || lock.stamp.None? || now - lock.stamp.value > STALE_MS
  }

  function Older(files: map<Path, int>, cutoff: int): map<Path, int>
  {
    map p | p in files && files[p] < cutoff :: files[p]
  }

  predicate WellSized(s: System)
  {
    |s.phases| == |s.cutoffs| == |s.listed|
  }

  /** The effect of step `act` of contender `i`, if it can take it. */
  function Apply(s: System, i: nat, act: Act): Option<System>
    requires WellSized(s) && i < |s.phases|
    ensures Apply(s, i, act).Some? ==>
              WellSized(Apply(s, i, act).value) && |Apply(s, i, act).value.phases| == |s.phases|
  {
    match (act, s.phases[i])
    case (MakeDir, Waiting(r, stale)) =>
      if s.lock.Free? then Some(s.(lock := Held(None), phases := s.phases[i := Stamping(r, stale, false)]))
      else Some(s.(phases := s.phases[i := Checking(r, stale)]))
    case (WriteStamp(t), Stamping(r, stale, again)) =>
      if s.lock.Held? then Some(s.(lock := Held(Some(t)), phases := s.phases[i := Owning(r, stale)]))
      else Some(s.(phases := s.phases[i := if again then Waiting(r, stale) else Checking(r, stale)]))
    case (Check(now), Checking(r, stale)) =>
      Some(s.(phases := s.phases[i := if LooksStale(s.lock, now) then Breaking(r, stale) else Waiting(r, stale)]))
    case (Remove, Breaking(r, stale)) => Some(s.(lock := Free, phases := s.phases[i := Retrying(r, stale)]))
    case (MakeDirAgain, Retrying(r, stale)) =>
      if s.lock.Free? then Some(s.(lock := Held(None), phases := s.phases[i := Stamping(r, stale, true)]))
      else Some(s.(phases := s.phases[i := Waiting(r, stale)]))
    case (GiveUp, Waiting(r, stale)) => Some(s.(phases := s.phases[i := Failed(r)]))
    case (List, Owning(First, _)) =>
      var older := Older(s.files, s.cutoffs[i]);
      Some(s.(listed := s.listed[i := older], phases := s.phases[i := Listed(older.Keys)]))
    case (ReleaseFirst, Listed(stale)) => Some(s.(lock := Free, phases := s.phases[i := Archiving(stale)]))
    case (Reacquire, Archiving(stale)) => Some(s.(phases := s.phases[i := Waiting(Second, stale)]))
    case (Delete(p), Owning(Second, stale)) =>
      if p !in stale then None
      else if p in s.files then
        Some(s.(files := s.files - {p}, deleted := s.deleted + [(i, p)],
                phases := s.phases[i := Owning(Second, stale - {p})]))
      else Some(s.(phases := s.phases[i := Owning(Second, stale - {p})]))
    case (Finish, Owning(_, _)) => Some(s.(lock := Free, phases := s.phases[i := Done]))
    case (Finish, Listed(_)) => Some(s.(lock := Free, phases := s.phases[i := Done]))
    case (Finish, Archiving(_)) => Some(s.(phases := s.phases[i := Done]))
    case (External(files), _) => Some(s.(files := files))
    case _ => None
  }

  /** From creating the directory to removing it. */
  predicate Holds(p: Phase)
  {
    p.Stamping? || p.Owning? || p.Listed?
  }

  ghost predicate Initial(s: System)
  {
    && WellSized(s) && s.lock.Free? && s.deleted == []
    && (forall i :: 0 <= i < |s.phases| ==> s.phases[i] == Waiting(First, {}) && s.listed[i] == map[])
  }

  // ---- Mutual exclusion ------------------------------------------------------

  /** At most one contender holds the lock, and the directory exists exactly while one does. */
  ghost predicate Exclusive(s: System)
  {
    && WellSized(s)
    && (forall i, j :: 0 <= i < |s.phases| && 0 <= j < |s.phases| && Holds(s.phases[i]) && Holds(s.phases[j]) ==>
          i == j)
    && (forall i :: 0 <= i < |s.phases| && Holds(s.phases[i]) ==> s.lock.Held?)
    && (s.lock.Held? ==> exists i :: 0 <= i < |s.phases| && Holds(s.phases[i]))
  }

  /** A removal that hits nothing. */
  predicate Harmless(s: System, act: Act)
  {
    act.Remove? ==> s.lock.Free?
  }

  /** When contender `i` moves, everyone else's hold is what it was. */
  lemma HoldersAfter(s: System, i: nat, p: Phase, t: System)
    requires Exclusive(s) && i < |s.phases|
    requires WellSized(t) && t.phases == s.phases[i := p]
    requires Holds(p) ==> t.lock.Held? && (Holds(s.phases[i]) || s.lock.Free?)
    requires !Holds(p) ==> t.lock == if Holds(s.phases[i]) then Free else s.lock
    ensures Exclusive(t)
  {
    assert t.phases[i] == p;
    forall j | 0 <= j < |t.phases| && j != i && Holds(t.phases[j])
      ensures t.lock.Held? && !Holds(p)
    {
      assert Holds(s.phases[j]);
    }
    if t.lock.Held? && !Holds(p) {
      var j :| 0 <= j < |s.phases| && Holds(s.phases[j]);
      assert t.phases[j] == s.phases[j];
    }
  }

  lemma StepExclusive(s: System, i: nat, act: Act)
    requires Exclusive(s) && i < |s.phases| && Apply(s, i, act).Some? && Harmless(s, act)
    ensures Exclusive(Apply(s, i, act).value)
  {
    var t := Apply(s, i, act).value;
    if act.External? {
      assert t.phases == s.phases && t.lock == s.lock;
    } else {
      HoldersAfter(s, i, t.phases[i], t);
    }
  }

  /** A run of the system: who took which step, and the states in between. */
  ghost predicate Run(trace: seq<System>, steps: seq<(nat, Act)>)
  {
    && |trace| == |steps| + 1 && Initial(trace[0])
    && forall k :: 0 <= k < |steps| ==> Takes(trace[k], steps[k].0, steps[k].1, trace[k + 1])
  }

  ghost predicate Takes(s: System, i: nat, act: Act, t: System)
  {
    WellSized(s) && i < |s.phases| && Apply(s, i, act) == Some(t)
  }

  /** In every interleaving in which no removal hits a lock that is there - so in
      particular when nobody takes the stale-break branch - at most one contender holds
      the lock at any time. */
  lemma {:induction false} MutualExclusion(trace: seq<System>, steps: seq<(nat, Act)>, k: nat)
    requires Run(trace, steps) && k < |trace|
    requires forall n :: 0 <= n < k ==> Harmless(trace[n], steps[n].1)
    ensures Exclusive(trace[k])
  {
    if k > 0 {
      MutualExclusion(trace, steps, k - 1);
      assert Takes(trace[k - 1], steps[k - 1].0, steps[k - 1].1, trace[k]);
      StepExclusive(trace[k - 1], steps[k - 1].0, steps[k - 1].1);
    }
  }

  /** In such a run a file is deleted only by the one holder of the lock. */
  lemma DeletesOnlyByTheHolder(trace: seq<System>, steps: seq<(nat, Act)>, k: nat, j: nat)
    requires Run(trace, steps) && k < |steps| && steps[k].1.Delete?
    requires forall n :: 0 <= n < k ==> Harmless(trace[n], steps[n].1)
    requires j < |trace[k].phases|
    ensures Holds(trace[k].phases[j]) <==> j == steps[k].0
  {
    MutualExclusion(trace, steps, k);
    assert Takes(trace[k], steps[k].0, steps[k].1, trace[k + 1]);
    assert Holds(trace[k].phases[steps[k].0]);
  }

  ghost predicate TwoHold(s: System)
  {
    exists i, j :: 0 <= i < j < |s.phases| && Holds(s.phases[i]) && Holds(s.phases[j])
  }

  /** One more step of contender `i` can make two holders. */
  ghost predicate CanMakeTwoHold(s: System, i: nat)
  {
    exists act, t :: Takes(s, i, act, t) && TwoHold(t)
  }

  /** The premise is exact. In any run that has been harmless so far, a removal can be
      followed, with one more step of the remover, by two holders if and only if it hits a
      lock that is there. */
  lemma RemovalExact(trace: seq<System>, steps: seq<(nat, Act)>, k: nat)
    requires Run(trace, steps) && k < |steps| && steps[k].1.Remove?
    requires forall n :: 0 <= n < k ==> Harmless(trace[n], steps[n].1)
    ensures CanMakeTwoHold(trace[k + 1], steps[k].0) <==> trace[k].lock.Held?
  {
    var i, s, t := steps[k].0, trace[k], trace[k + 1];
    MutualExclusion(trace, steps, k);
    assert Takes(s, i, Remove, t);
    if s.lock.Held? {
      var j :| 0 <= j < |s.phases| && Holds(s.phases[j]);
      var u := Apply(t, i, MakeDirAgain).value;
      assert Takes(t, i, MakeDirAgain, u);
      assert Holds(u.phases[i]) && Holds(u.phases[j]);
    } else {
      StepExclusive(s, i, Remove);
      forall act, u | Takes(t, i, act, u)
        ensures !TwoHold(u)
      {
        StepExclusive(t, i, act);
      }
    }
  }

  // ---- Deletions -------------------------------------------------------------

  /** Carried stale lists come from the contender's own listing, everything listed was
      older than its cutoff, and only contenders in or past their second lock deleted. */
  ghost predicate Accounted(s: System)
  {
    && WellSized(s)
    && (forall i :: 0 <= i < |s.phases| ==> Carried(s.phases[i]) <= s.listed[i].Keys)
    && (forall i, p :: 0 <= i < |s.phases| && p in s.listed[i] ==> s.listed[i][p] < s.cutoffs[i])
    && (forall n :: 0 <= n < |s.deleted| ==> LoggedRightly(s, s.deleted[n].0, s.deleted[n].1))
  }

  ghost predicate LoggedRightly(s: System, i: nat, p: Path)
    requires WellSized(s)
  {
    i < |s.phases| && p in s.listed[i] && MayHaveDeleted(s.phases[i])
  }

  function Carried(p: Phase): set<Path>
  {
    if p.Failed? || p.Done? then {} else p.stale
  }

  predicate MayHaveDeleted(p: Phase)
  {
    p.Done? || (p.Owning? && p.round.Second?)
  }

  /** What a step of contender `i` may change, for the account of deletions. */
  ghost predicate AccountMoves(s: System, i: nat, t: System)
    requires WellSized(s) && i < |s.phases|
  {
    && WellSized(t) && |t.phases| == |s.phases| && t.cutoffs == s.cutoffs
    && (forall j :: 0 <= j < |s.phases| && j != i ==> t.phases[j] == s.phases[j] && t.listed[j] == s.listed[j])
    && Carried(t.phases[i]) <= t.listed[i].Keys
    && (forall p :: p in t.listed[i] ==> t.listed[i][p] < t.cutoffs[i])
    && (MayHaveDeleted(s.phases[i]) ==> MayHaveDeleted(t.phases[i]) && t.listed[i] == s.listed[i])
    && (t.deleted == s.deleted
        || exists p :: t.deleted == s.deleted + [(i, p)] && p in t.listed[i] && MayHaveDeleted(t.phases[i]))
  }

  lemma StepMoves(s: System, i: nat, act: Act)
    requires Accounted(s) && i < |s.phases| && Apply(s, i, act).Some?
    ensures AccountMoves(s, i, Apply(s, i, act).value)
  {
    if act.List? {
      assert Older(s.files, s.cutoffs[i]).Keys <= s.files.Keys;
    }
  }

  lemma MovesAccounted(s: System, i: nat, t: System)
    requires Accounted(s) && i < |s.phases| && AccountMoves(s, i, t)
    ensures Accounted(t)
  {
    forall n | 0 <= n < |t.deleted|
      ensures LoggedRightly(t, t.deleted[n].0, t.deleted[n].1)
    {
      if n < |s.deleted| {
        assert t.deleted[n] == s.deleted[n];
        assert LoggedRightly(s, s.deleted[n].0, s.deleted[n].1);
      }
    }
  }

  /** Whatever happens to the lock - broken or not - every deleted path was listed by the
      same contender under its first lock, with a time below its cutoff, and a contender
      that did not get its second lock deleted nothing. */
  lemma {:induction false} DeletionsAccounted(trace: seq<System>, steps: seq<(nat, Act)>, k: nat)
    requires Run(trace, steps) && k < |trace|
    ensures Accounted(trace[k])
  {
    if k > 0 {
      DeletionsAccounted(trace, steps, k - 1);
      assert Takes(trace[k - 1], steps[k - 1].0, steps[k - 1].1, trace[k]);
      StepMoves(trace[k - 1], steps[k - 1].0, steps[k - 1].1);
      MovesAccounted(trace[k - 1], steps[k - 1].0, trace[k]);
    }
  }

  lemma FailedDeletedNothing(trace: seq<System>, steps: seq<(nat, Act)>, k: nat, i: nat, p: Path)
    requires Run(trace, steps) && k < |trace| && i < |trace[k].phases|
    requires trace[k].phases[i].Failed?
    ensures (i, p) !in trace[k].deleted
  {
    DeletionsAccounted(trace, steps, k);
    var log := trace[k].deleted;
    forall n | 0 <= n < |log|
      ensures log[n] != (i, p)
    {
      assert LoggedRightly(trace[k], log[n].0, log[n].1);
    }
  }

  // ---- Reachable trouble -----------------------------------------------------

  ghost predicate Reachable(s: System)
  {
    exists trace, steps :: Run(trace, steps) && trace[|steps|] == s
  }

  lemma ReachableStart(s: System)
    requires Initial(s)
    ensures Reachable(s)
  {
    var steps: seq<(nat, Act)> := [];
    assert Run([s], steps) && [s][|steps|] == s;
  }

  lemma RunExtends(trace: seq<System>, steps: seq<(nat, Act)>, i: nat, act: Act, t: System)
    requires Run(trace, steps) && Takes(trace[|steps|], i, act, t)
    ensures Run(trace + [t], steps + [(i, act)])
  {
    var longer, more := trace + [t], steps + [(i, act)];
    forall k | 0 <= k < |more|
      ensures Takes(longer[k], more[k].0, more[k].1, longer[k + 1])
    {
      if k < |steps| {
        assert Takes(trace[k], steps[k].0, steps[k].1, trace[k + 1]);
      }
    }
  }

  lemma ReachableNext(s: System, i: nat, act: Act, t: System)
    requires Reachable(s) && Takes(s, i, act, t)
    ensures Reachable(t)
  {
    var trace, steps :| Run(trace, steps) && trace[|steps|] == s;
    RunExtends(trace, steps, i, act, t);
    assert (trace + [t])[|steps + [(i, act)]|] == t;
  }

  /** The next state and its reachability, for building runs step by step. */
  lemma Do(s: System, i: nat, act: Act) returns (t: System)
    requires Reachable(s) && WellSized(s) && i < |s.phases| && Apply(s, i, act).Some?
    ensures Reachable(t) && Takes(s, i, act, t)
  {
    t := Apply(s, i, act).value;
    ReachableNext(s, i, act, t);
  }

  /** Two contenders that both own the lock, reached without any clock running out: the
      second looks between the first one's directory and its stamp, takes the missing
      stamp for a stale lock, breaks it and acquires; the first then stamps the second
      one's directory. */
  lemma TwoHolders(now: int) returns (s: System)
    ensures Reachable(s) && |s.phases| == 2
    ensures s.phases[0] == Owning(First, {}) && s.phases[1] == Owning(First, {})
    ensures TwoHold(s)
  {
    var w := Waiting(First, {});
    s := System(Free, map[], [w, w], [0, 0], [map[], map[]], []);
    ReachableStart(s);
    s := Do(s, 0, MakeDir);
    s := Overtake(s, now);
    s := Do(s, 0, WriteStamp(now));
    assert Holds(s.phases[0]) && Holds(s.phases[1]);
  }

  /** The second contender breaks and takes the lock the first has not stamped yet. */
  lemma Overtake(s: System, now: int) returns (t: System)
    requires Reachable(s) && WellSized(s) && |s.phases| == 2 && s.lock == Held(None)
    requires s.phases[0].Stamping? && s.phases[1] == Waiting(First, {})
    ensures Reachable(t) && WellSized(t) && |t.phases| == 2 && t.lock == Held(Some(now)) && t.files == s.files
    ensures t.phases[0] == s.phases[0] && t.phases[1] == Owning(First, {})
  {
    t := Do(s, 1, MakeDir);
    t := Do(t, 1, Check(now));
    t := Do(t, 1, Remove);
    t := Do(t, 1, MakeDirAgain);
    t := Do(t, 1, WriteStamp(now));
  }

  /** Releasing removes whatever lock is there, so the damage goes on: a reachable state in
      which a contender deletes a file while there is no lock at all. */
  lemma DeletesWithoutALock(p: Path, now: int) returns (s: System)
    ensures Reachable(s) && WellSized(s) && |s.phases| == 2
    ensures s.lock.Free? && p in s.files && Apply(s, 0, Delete(p)).Some? && p !in Apply(s, 0, Delete(p)).value.files
  {
    s := SecondLockUnstamped(p, now);
    s := Overtake(s, now);
    s := Do(s, 0, WriteStamp(now));
    s := Do(s, 1, Finish);
  }

  /** A contender that has listed `p`, released, and made its second lock directory. */
  lemma SecondLockUnstamped(p: Path, now: int) returns (s: System)
    ensures Reachable(s) && WellSized(s) && |s.phases| == 2 && s.lock == Held(None) && p in s.files
    ensures s.phases[0] == Stamping(Second, {p}, false) && s.phases[1] == Waiting(First, {})
  {
    s := OneListed(p, now);
    s := Do(s, 0, ReleaseFirst);
    s := Do(s, 0, Reacquire);
    s := Do(s, 0, MakeDir);
  }

  lemma OneListed(p: Path, now: int) returns (s: System)
    ensures Reachable(s) && WellSized(s) && |s.phases| == 2 && p in s.files
    ensures s.phases[0] == Listed({p}) && s.phases[1] == Waiting(First, {})
  {
    s := OneOwning(p, now);
    s := Do(s, 0, List);
  }

  lemma OneOwning(p: Path, now: int) returns (s: System)
    ensures Reachable(s) && WellSized(s) && |s.phases| == 2 && p in s.files
    ensures s.phases[0] == Owning(First, {}) && s.phases[1] == Waiting(First, {})
    ensures Older(s.files, s.cutoffs[0]).Keys == {p}
  {
    var w := Waiting(First, {});
    var files: map<Path, int> := map[p := 0];
    s := System(Free, files, [w, w], [1, 1], [map[], map[]], []);
    ReachableStart(s);
    s := Do(s, 0, MakeDir);
    s := Do(s, 0, WriteStamp(now));
    assert s.files == files && s.cutoffs == [1, 1];
    assert Older(files, 1).Keys == {p};
  }

  // ---- When a lock is taken for stale ----------------------------------------

  /** Steps from `s`, taken by whom `who` admits. */
  ghost predicate Walk(s: System, who: (nat, Act) -> bool, trace: seq<System>, steps: seq<(nat, Act)>)
  {
    && |trace| == |steps| + 1 && trace[0] == s
    && forall k :: 0 <= k < |steps| ==>
         who(steps[k].0, steps[k].1) && Takes(trace[k], steps[k].0, steps[k].1, trace[k + 1])
  }

  ghost predicate Leads(s: System, who: (nat, Act) -> bool, t: System)
  {
    exists trace, steps :: Walk(s, who, trace, steps) && trace[|steps|] == t
  }

  lemma LeadsHere(s: System, who: (nat, Act) -> bool)
    ensures Leads(s, who, s)
  {
    var steps: seq<(nat, Act)> := [];
    assert Walk(s, who, [s], steps);
  }

  lemma LeadsOn(s: System, who: (nat, Act) -> bool, i: nat, act: Act, u: System, t: System)
    requires who(i, act) && Takes(s, i, act, u) && Leads(u, who, t)
    ensures Leads(s, who, t)
  {
    var trace, steps :| Walk(u, who, trace, steps) && trace[|steps|] == t;
    var longer, more := [s] + trace, [(i, act)] + steps;
    forall k | 0 <= k < |more|
      ensures who(more[k].0, more[k].1) && Takes(longer[k], more[k].0, more[k].1, longer[k + 1])
    {
      if k > 0 {
        assert more[k] == steps[k - 1] && longer[k] == trace[k - 1] && longer[k + 1] == trace[k];
      }
    }
    assert Walk(s, who, longer, more) && longer[|more|] == t;
  }

  function OthersThan(i: nat): (nat, Act) -> bool
  {
    (j: nat, act: Act) => j != i
  }

  function AloneAt(i: nat, now: int): (nat, Act) -> bool
  {
    (j: nat, act: Act) => j == i && (act.Check? ==> act.now == now)
  }

  /** Without a move of its own, `i` can find itself about to remove a lock that is there. */
  ghost predicate CanHitLive(s: System, i: nat)
  {
    exists t :: Leads(s, OthersThan(i), t) && i < |t.phases| && t.phases[i].Breaking? && t.lock.Held?
  }

  /** Neither given up nor through. */
  predicate Active(p: Phase)
  {
    !p.Failed? && !p.Done?
  }

  lemma {:induction false} OthersKeepPhase(s: System, i: nat, trace: seq<System>, steps: seq<(nat, Act)>, k: nat)
    requires WellSized(s) && i < |s.phases| && Walk(s, OthersThan(i), trace, steps) && k < |trace|
    ensures i < |trace[k].phases| && trace[k].phases[i] == s.phases[i]
  {
    if k > 0 {
      OthersKeepPhase(s, i, trace, steps, k - 1);
      assert Takes(trace[k - 1], steps[k - 1].0, steps[k - 1].1, trace[k]);
    }
  }

  /** A free lock that nobody but `i` will ever take. */
  ghost predicate Forsaken(s: System, i: nat)
  {
    WellSized(s) && s.lock.Free? && forall j :: 0 <= j < |s.phases| && j != i ==> !Active(s.phases[j])
  }

  lemma {:induction false} ForsakenStays(s: System, i: nat, trace: seq<System>, steps: seq<(nat, Act)>, k: nat)
    requires Forsaken(s, i) && Walk(s, OthersThan(i), trace, steps) && k < |trace|
    ensures Forsaken(trace[k], i)
  {
    if k > 0 {
      ForsakenStays(s, i, trace, steps, k - 1);
      assert Takes(trace[k - 1], steps[k - 1].0, steps[k - 1].1, trace[k]);
    }
  }

  /** An active contender that holds nothing can come to make the directory. */
  lemma CanTakeFree(s: System, i: nat, j: nat) returns (t: System)
    requires WellSized(s) && i < |s.phases| && j < |s.phases| && i != j
    requires s.lock.Free? && Active(s.phases[j]) && !Holds(s.phases[j])
    ensures Leads(s, OthersThan(i), t) && t.lock.Held? && |t.phases| == |s.phases| && t.phases[i] == s.phases[i]
    decreases match s.phases[j] case Checking(_, _) => 3 case Breaking(_, _) => 2 case Archiving(_) => 2 case _ => 1
  {
    var act := match s.phases[j]
      case Waiting(_, _) => MakeDir
      case Retrying(_, _) => MakeDirAgain
      case Checking(_, _) => Check(0)
      case Breaking(_, _) => Remove
      case _ => Reacquire;
    var u := Apply(s, j, act).value;
    assert Takes(s, j, act, u);
    if s.phases[j].Waiting? || s.phases[j].Retrying? {
      t := u;
      LeadsHere(u, OthersThan(i));
    } else {
      t := CanTakeFree(u, i, j);
    }
    LeadsOn(s, OthersThan(i), j, act, u, t);
  }

  /** Exactly which checks are a danger. From a state with at most one holder, a check can
      end in the removal of a lock that is there if and only if it finds a lock without a
      stamp, one stamped more than 60 000 ms before, or none at all while another contender
      is still at it. */
  lemma CheckThreatensIff(s: System, i: nat, now: int, t: System)
    requires Exclusive(s) && Takes(s, i, Check(now), t)
    ensures CanHitLive(t, i) <==>
      || s.lock == Held(None)
      || (s.lock.Held? && s.lock.stamp.Some? && now - s.lock.stamp.value > 60_000)
      || (s.lock.Free? && exists j :: 0 <= j < |s.phases| && j != i && Active(s.phases[j]))
  {
    if u :| Leads(t, OthersThan(i), u) && i < |u.phases| && u.phases[i].Breaking? && u.lock.Held? {
      var trace, steps :| Walk(t, OthersThan(i), trace, steps) && trace[|steps|] == u;
      OthersKeepPhase(t, i, trace, steps, |steps|);
      if Forsaken(t, i) {
        ForsakenStays(t, i, trace, steps, |steps|);
      }
    }
    if t.phases[i].Breaking? {
      if t.lock.Held? {
        LeadsHere(t, OthersThan(i));
      } else if j :| 0 <= j < |s.phases| && j != i && Active(s.phases[j]) {
        assert !Holds(s.phases[j]);
        var u := CanTakeFree(t, i, j);
      }
    }
  }

  // ---- Progress --------------------------------------------------------------

  ghost predicate CanOwnAlone(s: System, i: nat, now: int)
  {
    exists t :: Leads(s, AloneAt(i, now), t) && i < |t.phases| && t.phases[i].Owning?
  }

  ghost predicate StillOut(s: System, i: nat, stamp: int)
  {
    && WellSized(s) && i < |s.phases| && s.lock == Held(Some(stamp))
    && (s.phases[i].Waiting? || s.phases[i].Checking? || s.phases[i].Failed?)
  }

  lemma {:induction false} AloneStaysOut(s: System, i: nat, now: int, stamp: int,
                                         trace: seq<System>, steps: seq<(nat, Act)>, k: nat)
    requires StillOut(s, i, stamp) && now - stamp <= 60_000
    requires Walk(s, AloneAt(i, now), trace, steps) && k < |trace|
    ensures StillOut(trace[k], i, stamp)
  {
    if k > 0 {
      AloneStaysOut(s, i, now, stamp, trace, steps, k - 1);
      assert Takes(trace[k - 1], steps[k - 1].0, steps[k - 1].1, trace[k]);
    }
  }

  lemma AloneStep(s: System, i: nat, now: int, act: Act) returns (t: System)
    requires WellSized(s) && i < |s.phases| && Apply(s, i, act).Some? && (act.Check? ==> act.now == now)
    ensures Takes(s, i, act, t) && WellSized(t) && |t.phases| == |s.phases|
    ensures Apply(s, i, act) == Some(t)
    ensures CanOwnAlone(t, i, now) ==> CanOwnAlone(s, i, now)
  {
    t := Apply(s, i, act).value;
    if u :| Leads(t, AloneAt(i, now), u) && i < |u.phases| && u.phases[i].Owning? {
      LeadsOn(s, AloneAt(i, now), i, act, t, u);
    }
  }

  lemma BreaksAndOwns(s: System, i: nat, now: int)
    requires WellSized(s) && i < |s.phases| && s.phases[i].Breaking?
    ensures CanOwnAlone(s, i, now)
  {
    var t := AloneStep(s, i, now, Remove);
    var u := AloneStep(t, i, now, MakeDirAgain);
    var v := AloneStep(u, i, now, WriteStamp(now));
    LeadsHere(v, AloneAt(i, now));
  }

  /** An abandoned lock is broken in the end, and no other: a contender waiting before a
      stamped lock comes to own it by its own steps, checking at `now`, exactly when the
      stamp is more than 60 000 ms old. */
  lemma CanOwnAloneIff(s: System, i: nat, now: int)
    requires WellSized(s) && i < |s.phases| && s.phases[i].Waiting? && s.lock.Held? && s.lock.stamp.Some?
    ensures CanOwnAlone(s, i, now) <==> now - s.lock.stamp.value > 60_000
  {
    if now - s.lock.stamp.value > 60_000 {
      var t := AloneStep(s, i, now, MakeDir);
      var u := AloneStep(t, i, now, Check(now));
      BreaksAndOwns(u, i, now);
    } else if t :| Leads(s, AloneAt(i, now), t) && i < |t.phases| && t.phases[i].Owning? {
      var trace, steps :| Walk(s, AloneAt(i, now), trace, steps) && trace[|steps|] == t;
      AloneStaysOut(s, i, now, s.lock.stamp.value, trace, steps, |steps|);
    }
  }

  // ---- Runs under one clock --------------------------------------------------

  /** Checks read one clock, which does not run back. */
  ghost predicate Timed(trace: seq<System>, steps: seq<(nat, Act)>, clock: seq<int>)
  {
    && Run(trace, steps) && |clock| == |steps|
    && (forall k, n :: 0 <= k < n < |clock| ==> clock[k] <= clock[n])
    && (forall k :: 0 <= k < |steps| && steps[k].1.Check? ==> steps[k].1.now == clock[k])
  }

  /** Every holder is through at most 60 000 ms after its stamp. */
  ghost predicate PromptHolders(trace: seq<System>, steps: seq<(nat, Act)>, clock: seq<int>)
    requires Timed(trace, steps, clock)
  {
    forall k :: 0 <= k < |steps| && trace[k].lock.Held? && trace[k].lock.stamp.Some? ==>
      clock[k] - trace[k].lock.stamp.value <= 60_000
  }

  /** No check falls between a directory and its stamp. */
  ghost predicate NoCheckBeforeStamp(trace: seq<System>, steps: seq<(nat, Act)>)
    requires Run(trace, steps)
  {
    forall k :: 0 <= k < |steps| && steps[k].1.Check? ==> trace[k].lock != Held(None)
  }

  /** Nobody makes the directory while another, having found no lock, is about to remove it. */
  ghost predicate NoDirectoryWhileBreaking(trace: seq<System>, steps: seq<(nat, Act)>)
    requires Run(trace, steps)
  {
    forall k :: 0 <= k < |steps| && (steps[k].1.MakeDir? || steps[k].1.MakeDirAgain?) && trace[k].lock.Free? ==>
      NobodyBreaks(trace[k])
  }

  ghost predicate NobodyBreaks(s: System)
  {
    forall j :: 0 <= j < |s.phases| ==> !s.phases[j].Breaking?
  }

  /** Whoever is about to remove a lock will find none. */
  ghost predicate BreakersFindNothing(s: System)
  {
    forall j :: 0 <= j < |s.phases| && s.phases[j].Breaking? ==> s.lock.Free?
  }

  /** Under one clock, with prompt holders, no check before a stamp, and no directory made
      under a pending removal, every removal is harmless and at most one holds the lock
      at any time. */
  lemma {:induction false} PromptRunsAreSafe(trace: seq<System>, steps: seq<(nat, Act)>, clock: seq<int>, k: nat)
    requires Timed(trace, steps, clock) && PromptHolders(trace, steps, clock)
    requires NoCheckBeforeStamp(trace, steps) && NoDirectoryWhileBreaking(trace, steps) && k < |trace|
    ensures Exclusive(trace[k]) && BreakersFindNothing(trace[k])
    ensures k < |steps| ==> Harmless(trace[k], steps[k].1)
  {
    if k > 0 {
      PromptRunsAreSafe(trace, steps, clock, k - 1);
      var s, i, act, t := trace[k - 1], steps[k - 1].0, steps[k - 1].1, trace[k];
      assert Takes(s, i, act, t);
      StepExclusive(s, i, act);
      StepFindsNothing(s, i, act, t);
    }
    if k < |steps| {
      assert Takes(trace[k], steps[k].0, steps[k].1, trace[k + 1]);
    }
  }

  lemma StepFindsNothing(s: System, i: nat, act: Act, t: System)
    requires Takes(s, i, act, t) && BreakersFindNothing(s) && Harmless(s, act)
    requires act.Check? ==> s.lock != Held(None)
    requires act.Check? && s.lock.Held? && s.lock.stamp.Some? ==> act.now - s.lock.stamp.value <= 60_000
    requires (act.MakeDir? || act.MakeDirAgain?) && s.lock.Free? ==> NobodyBreaks(s)
    ensures BreakersFindNothing(t)
  {
    assert forall j :: 0 <= j < |s.phases| && j != i ==> t.phases[j] == s.phases[j];
  }

  /** Such runs exist: one contender acquires while another looks on. */
  lemma SomeRunIsPrompt(now: int) returns (trace: seq<System>, steps: seq<(nat, Act)>, clock: seq<int>)
    ensures Timed(trace, steps, clock) && PromptHolders(trace, steps, clock)
    ensures NoCheckBeforeStamp(trace, steps) && NoDirectoryWhileBreaking(trace, steps)
    ensures trace[|steps|].phases == [Owning(First, {}), Checking(First, {})]
  {
    var w := Waiting(First, {});
    var s := System(Free, map[], [w, w], [0, 0], [map[], map[]], []);
    var made := Apply(s, 0, MakeDir).value;
    var seen := Apply(made, 1, MakeDir).value;
    var owned := Apply(seen, 0, WriteStamp(now)).value;
    trace, steps, clock := [s, made, seen, owned], [(0, MakeDir), (1, MakeDir), (0, WriteStamp(now))], [now, now, now];
    assert Takes(s, 0, MakeDir, made) && Takes(made, 1, MakeDir, seen) && Takes(seen, 0, WriteStamp(now), owned);
    assert NobodyBreaks(s);
  }

  // ---- The last premise is needed --------------------------------------------

  /** All happens at one instant, and no check meets a lock without a stamp. */
  predicate Gentle(s: System, act: Act, now: int)
  {
    && (act.Check? ==> act.now == now && s.lock != Held(None))
    && (s.lock.Held? && s.lock.stamp.Some? ==> s.lock.stamp.value == now)
  }

  ghost predicate GentleRun(trace: seq<System>, steps: seq<(nat, Act)>, now: int)
  {
    Run(trace, steps) && forall k :: 0 <= k < |steps| ==> Gentle(trace[k], steps[k].1, now)
  }

  ghost predicate GentlyReachable(s: System, now: int)
  {
    exists trace, steps :: GentleRun(trace, steps, now) && trace[|steps|] == s
  }

  lemma GentleRunExtends(trace: seq<System>, steps: seq<(nat, Act)>, i: nat, act: Act, t: System, now: int)
    requires GentleRun(trace, steps, now) && Takes(trace[|steps|], i, act, t) && Gentle(trace[|steps|], act, now)
    ensures GentleRun(trace + [t], steps + [(i, act)], now)
  {
    RunExtends(trace, steps, i, act, t);
    var longer, more := trace + [t], steps + [(i, act)];
    forall k | 0 <= k < |more|
      ensures Gentle(longer[k], more[k].1, now)
    {
      if k < |steps| {
        assert longer[k] == trace[k] && more[k] == steps[k];
      }
    }
  }

  lemma DoGently(s: System, i: nat, act: Act, now: int) returns (t: System)
    requires GentlyReachable(s, now) && WellSized(s) && i < |s.phases| && Apply(s, i, act).Some? && Gentle(s, act, now)
    ensures GentlyReachable(t, now) && Apply(s, i, act) == Some(t) && WellSized(t) && |t.phases| == |s.phases|
  {
    t := Apply(s, i, act).value;
    var trace, steps :| GentleRun(trace, steps, now) && trace[|steps|] == s;
    GentleRunExtends(trace, steps, i, act, t, now);
    assert (trace + [t])[|steps + [(i, act)]|] == t;
  }

  /** One owns the lock, and another has just failed to make it. */
  lemma OwnedAndWatched(now: int) returns (s: System)
    ensures GentlyReachable(s, now) && WellSized(s) && |s.phases| == 2 && s.lock == Held(Some(now))
    ensures s.phases[0] == Owning(First, {}) && s.phases[1] == Checking(First, {})
  {
    var w := Waiting(First, {});
    s := System(Free, map[], [w, w], [0, 0], [map[], map[]], []);
    var none: seq<(nat, Act)> := [];
    assert GentleRun([s], none, now) && [s][|none|] == s;
    s := DoGently(s, 0, MakeDir, now);
    s := DoGently(s, 1, MakeDir, now);
    s := DoGently(s, 0, WriteStamp(now), now);
  }

  lemma ReleasedAndBreaking(now: int) returns (s: System)
    ensures GentlyReachable(s, now) && WellSized(s) && |s.phases| == 2 && s.lock == Free
    ensures s.phases[0].Archiving? && s.phases[1] == Breaking(First, {})
  {
    s := OwnedAndWatched(now);
    s := DoGently(s, 0, List, now);
    s := DoGently(s, 0, ReleaseFirst, now);
    s := DoGently(s, 1, Check(now), now);
  }

  /** A contender that looks just after a release finds no lock, and its removal hits the
      lock that the same holder has made again meanwhile. */
  lemma LooksAfterRelease(now: int) returns (s: System)
    ensures GentlyReachable(s, now) && WellSized(s) && |s.phases| == 2 && s.lock == Held(Some(now))
    ensures s.phases[0].Owning? && s.phases[1] == Breaking(First, {})
  {
    s := ReleasedAndBreaking(now);
    s := DoGently(s, 0, Reacquire, now);
    s := DoGently(s, 0, MakeDir, now);
    s := DoGently(s, 0, WriteStamp(now), now);
  }

  /** So prompt holders and no check before a stamp are not enough: in a run of a single
      instant a removal hits a lock stamped at that instant, and two come to own it. */
  lemma PromptRunStillBreaks(now: int) returns (trace: seq<System>, steps: seq<(nat, Act)>, clock: seq<int>)
    ensures Timed(trace, steps, clock) && PromptHolders(trace, steps, clock) && NoCheckBeforeStamp(trace, steps)
    ensures |steps| > 0 && steps[|steps| - 1] == (1, Remove) && trace[|steps| - 1].lock == Held(Some(now))
    ensures Holds(trace[|steps|].phases[0]) && CanMakeTwoHold(trace[|steps|], 1)
  {
    var s := LooksAfterRelease(now);
    var before, taken :| GentleRun(before, taken, now) && before[|taken|] == s;
    var t := Apply(s, 1, Remove).value;
    GentleRunExtends(before, taken, 1, Remove, t, now);
    trace, steps := before + [t], taken + [(1, Remove)];
    clock := seq(|steps|, k => now);
    assert forall k :: 0 <= k < |steps| ==> Gentle(trace[k], steps[k].1, now);
    var u := Apply(t, 1, MakeDirAgain).value;
    assert Takes(t, 1, MakeDirAgain, u) && Holds(u.phases[0]) && Holds(u.phases[1]);
  }
}
