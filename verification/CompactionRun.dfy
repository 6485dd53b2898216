/** One compaction run over the progress files: archive what is stale, then delete it,
    and record the roots of the file names before and after. */
module CompactionRun {
  import opened Collections
  import opened Texts

  datatype Path = Path(dir: seq<Text>, name: Text)

  datatype Progress = Progress(modified: int, content: Text)

  type Files = map<Path, Progress>

  datatype Report = Report(removed: nat, archived: nat, errors: nat, rootBefore: Text, rootAfter: Text)

  const NEWLINE: CodeUnit := 10

  /** The hash of the sorted file names, one per line. */
  function MerkleRoot(hash: Text -> Text, names: seq<Text>): Text
  {
    if names == [] then hash([]) else hash(Join(SortTexts(names), NEWLINE))
  }

  function Name(p: Path): Text { p.name }

  predicate IsStale(files: Files, cutoff: int, p: Path)
  {
    p in files && files[p].modified < cutoff
  }

  function StaleTest(files: Files, cutoff: int): Path -> bool
  {
    p => IsStale(files, cutoff, p)
  }

  function Stale(files: Files, cutoff: int, listing: seq<Path>): seq<Path>
  {
    Filter(StaleTest(files, cutoff), listing)
  }

  /** A file is stale exactly if it is older than the cutoff: one of the very cutoff stays. */
  lemma StaleIff(files: Files, cutoff: int, listing: seq<Path>, p: Path)
    ensures p in Stale(files, cutoff, listing) <==> p in listing && p in files && files[p].modified < cutoff
  {
    FilterMembers(StaleTest(files, cutoff), listing);
  }

  /** A listing names every progress file once. */
  ghost predicate Lists(listing: seq<Path>, files: Files)
  {
    NoDup(listing) && forall p :: p in listing <==> p in files
  }

  // ---- The turns of a pass ---------------------------------------------------

  /** What others do to the files before each turn of a pass. */
  type Others = (nat, Files) -> Files

  function Idle(turn: nat, files: Files): Files { files }

  predicate Always(p: Path) { true }

  predicate Never(p: Path) { false }

  /** The files after the turns for `stale`, each deleting its file if `deletes` says so. */
  function AfterTurns(files: Files, others: Others, deletes: Path -> bool, stale: seq<Path>): Files
  {
    if stale == [] then files
    else
      var n := |stale| - 1;
      var now := others(n, AfterTurns(files, others, deletes, stale[..n]));
      if deletes(stale[n]) then now - {stale[n]} else now
  }

  /** The files as each turn finds them. */
  function Turns(files: Files, others: Others, deletes: Path -> bool, stale: seq<Path>): (found: seq<Files>)
    ensures |found| == |stale|
  {
    if stale == [] then []
    else
      var n := |stale| - 1;
      Turns(files, others, deletes, stale[..n]) + [others(n, AfterTurns(files, others, deletes, stale[..n]))]
  }

  /** The operation of a turn succeeds: its file is there, and it works. */
  predicate Works(found: Files, works: Path -> bool, p: Path)
  {
    p in found && works(p)
  }

  /** How many turns succeed. */
  function Hits(found: seq<Files>, works: Path -> bool, stale: seq<Path>): (n: nat)
    requires |found| == |stale|
    ensures n <= |stale|
  {
    if stale == [] then 0
    else
      var k := |stale| - 1;
      Hits(found[..k], works, stale[..k]) + if Works(found[k], works, stale[k]) then 1 else 0
  }

  /** The archive directory after the archiving pass: a later file of the same name
      replaces an earlier one. `works` says for which files reading and writing succeed. */
  function Archived(found: seq<Files>, works: Path -> bool, stale: seq<Path>): (r: map<Text, Text>)
    requires |found| == |stale|
  {
    if stale == [] then map[]
    else
      var k := |stale| - 1;
      var before := Archived(found[..k], works, stale[..k]);
      if Works(found[k], works, stale[k]) then before[stale[k].name := found[k][stale[k]].content] else before
  }

  /** One more turn. */
  lemma NextTurn(files: Files, others: Others, deletes: Path -> bool, stale: seq<Path>, i: nat)
    requires i < |stale|
    ensures var now := others(i, AfterTurns(files, others, deletes, stale[..i]));
      && AfterTurns(files, others, deletes, stale[..i + 1]) == (if deletes(stale[i]) then now - {stale[i]} else now)
      && Turns(files, others, deletes, stale[..i + 1]) == Turns(files, others, deletes, stale[..i]) + [now]
  {
    assert stale[..i + 1][..i] == stale[..i];
  }

  lemma HitsStep(found: seq<Files>, now: Files, works: Path -> bool, stale: seq<Path>, i: nat)
    requires |found| == i < |stale|
    ensures Hits(found + [now], works, stale[..i + 1])
         == Hits(found, works, stale[..i]) + if Works(now, works, stale[i]) then 1 else 0
  {
    assert stale[..i + 1][..i] == stale[..i] && (found + [now])[..i] == found;
  }

  lemma ArchivedStep(found: seq<Files>, now: Files, works: Path -> bool, stale: seq<Path>, i: nat)
    requires |found| == i < |stale|
    ensures Archived(found + [now], works, stale[..i + 1])
         == var before := Archived(found, works, stale[..i]);
            if Works(now, works, stale[i]) then before[stale[i].name := now[stale[i]].content] else before
  {
    assert stale[..i + 1][..i] == stale[..i] && (found + [now])[..i] == found;
  }

  /** The state root as one run sees it: the progress files and its own archive directory. */
  class StateRoot {
    var files: Files
    var archive: map<Text, Text>

    constructor (files: Files)
      ensures this.files == files && this.archive == map[]
    {
      this.files, this.archive := files, map[];
    }

    /** The archiving pass, while others write. A file that is gone, or cannot be read or
        written, is counted and passed over. */
    method ArchiveAll(works: Path -> bool, stale: seq<Path>, others: Others) returns (archived: nat, errors: nat)
      requires archive == map[]
      modifies this
      ensures files == AfterTurns(old(files), others, Never, stale)
      ensures archive == Archived(Turns(old(files), others, Never, stale), works, stale)
      ensures archived == Hits(Turns(old(files), others, Never, stale), works, stale) && archived + errors == |stale|
    {
      archived, errors := 0, 0;
      ghost var before := files;
      for i := 0 to |stale|
        invariant files == AfterTurns(before, others, Never, stale[..i])
        invariant archive == Archived(Turns(before, others, Never, stale[..i]), works, stale[..i])
        invariant archived == Hits(Turns(before, others, Never, stale[..i]), works, stale[..i])
        invariant archived + errors == i
      {
        NextTurn(before, others, Never, stale, i);
        files := others(i, files);
        HitsStep(Turns(before, others, Never, stale[..i]), files, works, stale, i);
        ArchivedStep(Turns(before, others, Never, stale[..i]), files, works, stale, i);
        var p := stale[i];
        if p in files && works(p) {
          archive := archive[p.name := files[p].content];
          archived := archived + 1;
        } else {
          errors := errors + 1;
        }
      }
      assert stale[..|stale|] == stale;
    }

    /** The deleting pass, while others write. It takes no notice of what was archived; a
        file that is gone counts as an error. */
    method DeleteAll(deletes: Path -> bool, stale: seq<Path>, others: Others) returns (removed: nat, errors: nat)
      modifies this`files
      ensures files == AfterTurns(old(files), others, deletes, stale)
      ensures removed == Hits(Turns(old(files), others, deletes, stale), deletes, stale) && removed + errors == |stale|
    {
      removed, errors := 0, 0;
      ghost var before := files;
      for i := 0 to |stale|
        invariant files == AfterTurns(before, others, deletes, stale[..i])
        invariant removed == Hits(Turns(before, others, deletes, stale[..i]), deletes, stale[..i])
        invariant removed + errors == i
      {
        NextTurn(before, others, deletes, stale, i);
        files := others(i, files);
        HitsStep(Turns(before, others, deletes, stale[..i]), files, deletes, stale, i);
        var p := stale[i];
        if p in files && deletes(p) {
          files := files - {p};
          removed := removed + 1;
        } else {
          assert deletes(p) ==> files - {p} == files;
          errors := errors + 1;
        }
      }
      assert stale[..|stale|] == stale;
    }

    /** The run, with others writing before every turn of both passes (`archiving`,
        `deleting`) and before the second walk (`last`). A dry run reports every stale
        file as removed and touches nothing. `walk` is the directory walk. */
    method Compact(hash: Text -> Text, cutoff: int, dryRun: bool, works: Path -> bool, deletes: Path -> bool,
                   walk: Files -> seq<Path>, archiving: Others, deleting: Others, last: Files -> Files)
      returns (report: Report)
      requires archive == map[] && forall f :: Lists(walk(f), f)
      modifies this
      ensures var stale := Stale(old(files), cutoff, walk(old(files)));
        var between := AfterTurns(old(files), archiving, Never, stale);
        && files == last(if dryRun then old(files) else AfterTurns(between, deleting, deletes, stale))
        && archive == (if dryRun then map[] else Archived(Turns(old(files), archiving, Never, stale), works, stale))
        && (dryRun ==> report.removed == |stale| && report.archived == report.errors == 0)
        && (!dryRun ==> && report.removed == Hits(Turns(between, deleting, deletes, stale), deletes, stale)
                        && report.archived == Hits(Turns(old(files), archiving, Never, stale), works, stale)
                        && report.removed + report.archived + report.errors == 2 * |stale|)
      ensures report.rootBefore == MerkleRoot(hash, Map(Name, walk(old(files))))
      ensures report.rootAfter == MerkleRoot(hash, Map(Name, walk(files)))
    {
      var listing := walk(files);
      var rootBefore := MerkleRoot(hash, Map(Name, listing));
      var stale := Stale(files, cutoff, listing);
      var removed, archived, errors := |stale|, 0, 0;
      if !dryRun {
        var archiveErrors, deleteErrors;
        archived, archiveErrors := ArchiveAll(works, stale, archiving);
        removed, deleteErrors := DeleteAll(deletes, stale, deleting);
        errors := archiveErrors + deleteErrors;
      }
      files := last(files);
      report := Report(removed, archived, errors, rootBefore, MerkleRoot(hash, Map(Name, walk(files))));
    }
  }

  // ---- Conservation ----------------------------------------------------------

  /** Nothing is lost: the content of every file the run deletes, as the deleting turn
      found it, is in the archive under its name. */
  ghost predicate Conserved(found: seq<Files>, deletes: Path -> bool, stale: seq<Path>, archive: map<Text, Text>)
    requires |found| == |stale|
  {
    forall i :: 0 <= i < |stale| && Works(found[i], deletes, stale[i]) ==>
      stale[i].name in archive && archive[stale[i].name] == found[i][stale[i]].content
  }

  /** A file of the given name was archived with the given content, and its copy was not
      replaced. */
  ghost predicate Kept(found: seq<Files>, works: Path -> bool, stale: seq<Path>, name: Text, content: Text)
    requires |found| == |stale|
  {
    exists i :: 0 <= i < |stale| && CopyOf(found[i], works, stale[i], name) && found[i][stale[i]].content == content
      && forall j :: i < j < |stale| ==> !CopyOf(found[j], works, stale[j], name)
  }

  predicate CopyOf(found: Files, works: Path -> bool, p: Path, name: Text)
  {
    Works(found, works, p) && p.name == name
  }

  /** The archive holds under a name the content of the last file of that name that could
      be archived. */
  lemma {:induction false} ArchivedLast(found: seq<Files>, works: Path -> bool, stale: seq<Path>,
                                        name: Text, content: Text)
    requires |found| == |stale|
    ensures name in Archived(found, works, stale) && Archived(found, works, stale)[name] == content
       <==> Kept(found, works, stale, name, content)
  {
    if stale != [] {
      var n := |stale| - 1;
      ArchivedLast(found[..n], works, stale[..n], name, content);
      if CopyOf(found[n], works, stale[n], name) {
        assert found[n][stale[n]].content == content ==> Kept(found, works, stale, name, content);
      } else {
        KeptFront(found, works, stale, name, content);
      }
    }
  }

  lemma KeptFront(found: seq<Files>, works: Path -> bool, stale: seq<Path>, name: Text, content: Text)
    requires |found| == |stale| > 0 && !CopyOf(found[|stale| - 1], works, stale[|stale| - 1], name)
    ensures Kept(found, works, stale, name, content)
       <==> Kept(found[..|stale| - 1], works, stale[..|stale| - 1], name, content)
  {
  }

  /** Every content the deleting pass removes was archived before and not replaced. */
  ghost predicate DeletesOnlyKept(archiving: seq<Files>, deleting: seq<Files>, works: Path -> bool,
                                  deletes: Path -> bool, stale: seq<Path>)
    requires |archiving| == |deleting| == |stale|
  {
    forall i :: 0 <= i < |stale| && Works(deleting[i], deletes, stale[i]) ==>
      Kept(archiving, works, stale, stale[i].name, deleting[i][stale[i]].content)
  }

  /** Whatever was listed, and whatever others write between any two turns: a run conserves
      the contents exactly when every file it deletes was archived as it was when deleted,
      and not replaced in the archive by another content. */
  lemma ConservedIff(archiving: seq<Files>, deleting: seq<Files>, works: Path -> bool, deletes: Path -> bool,
                     stale: seq<Path>)
    requires |archiving| == |deleting| == |stale|
    ensures Conserved(deleting, deletes, stale, Archived(archiving, works, stale))
       <==> DeletesOnlyKept(archiving, deleting, works, deletes, stale)
  {
    forall i | 0 <= i < |stale| && Works(deleting[i], deletes, stale[i])
      ensures stale[i].name in Archived(archiving, works, stale)
              && Archived(archiving, works, stale)[stale[i].name] == deleting[i][stale[i]].content
         <==> Kept(archiving, works, stale, stale[i].name, deleting[i][stale[i]].content)
    {
      ArchivedLast(archiving, works, stale, stale[i].name, deleting[i][stale[i]].content);
    }
  }

  ghost predicate DistinctNames(s: seq<Path>)
  {
    forall i, j :: 0 <= i < j < |s| ==> s[i].name != s[j].name
  }

  /** No stale file that is deleted was written since it was archived. */
  ghost predicate Unwritten(archiving: seq<Files>, deleting: seq<Files>, stale: seq<Path>)
    requires |archiving| == |deleting| == |stale|
  {
    forall i :: 0 <= i < |stale| && stale[i] in archiving[i] && stale[i] in deleting[i] ==>
      deleting[i][stale[i]].content == archiving[i][stale[i]].content
  }

  /** With no archive error, distinct base names and no write in between nothing is lost,
      and each stale file is archived as it was. */
  lemma DistinctNamesConserve(archiving: seq<Files>, deleting: seq<Files>, works: Path -> bool, deletes: Path -> bool,
                              stale: seq<Path>)
    requires |archiving| == |deleting| == |stale|
    requires DistinctNames(stale) && Hits(archiving, works, stale) == |stale|
    requires Unwritten(archiving, deleting, stale)
    ensures Conserved(deleting, deletes, stale, Archived(archiving, works, stale))
    ensures forall i :: 0 <= i < |stale| ==>
      && stale[i] in archiving[i] && stale[i].name in Archived(archiving, works, stale)
      && Archived(archiving, works, stale)[stale[i].name] == archiving[i][stale[i]].content
  {
    AllHit(archiving, works, stale);
    forall i | 0 <= i < |stale|
      ensures stale[i].name in Archived(archiving, works, stale)
              && Archived(archiving, works, stale)[stale[i].name] == archiving[i][stale[i]].content
    {
      assert CopyOf(archiving[i], works, stale[i], stale[i].name);
      ArchivedLast(archiving, works, stale, stale[i].name, archiving[i][stale[i]].content);
    }
  }

  lemma {:induction false} AllHit(found: seq<Files>, works: Path -> bool, stale: seq<Path>)
    requires |found| == |stale| && Hits(found, works, stale) == |stale|
    ensures forall i :: 0 <= i < |stale| ==> Works(found[i], works, stale[i])
  {
    if stale != [] {
      var k := |stale| - 1;
      AllHit(found[..k], works, stale[..k]);
      assert forall i :: 0 <= i < k ==> found[..k][i] == found[i] && stale[..k][i] == stale[i];
    }
  }

  // ---- When nobody else writes -----------------------------------------------

  /** What is left after the deleting pass. */
  function Remaining(files: Files, deletes: Path -> bool, stale: seq<Path>): Files
  {
    map p | p in files && !(p in stale && deletes(p)) :: files[p]
  }

  /** Alone, every turn finds the files less what the turns before deleted. */
  lemma {:induction false} AloneTurns(files: Files, deletes: Path -> bool, stale: seq<Path>)
    ensures AfterTurns(files, Idle, deletes, stale) == Remaining(files, deletes, stale)
    ensures forall i :: 0 <= i < |stale| ==>
      Turns(files, Idle, deletes, stale)[i] == Remaining(files, deletes, stale[..i])
  {
    if stale == [] {
      assert Remaining(files, deletes, stale) == files;
    } else {
      var n := |stale| - 1;
      AloneTurns(files, deletes, stale[..n]);
      AloneTurn(files, deletes, stale[..n], stale[n]);
      assert stale == stale[..n] + [stale[n]];
      forall i | 0 <= i < n
        ensures Turns(files, Idle, deletes, stale)[i] == Remaining(files, deletes, stale[..i])
      {
        assert stale[..n][..i] == stale[..i];
      }
    }
  }

  lemma AloneTurn(files: Files, deletes: Path -> bool, front: seq<Path>, p: Path)
    ensures Remaining(files, deletes, front + [p])
         == if deletes(p) then Remaining(files, deletes, front) - {p} else Remaining(files, deletes, front)
  {
  }

  /** Alone, and with each file listed once, nothing is lost exactly when every file there
      before is there after, or in the archive under its name. */
  lemma AloneConserved(files: Files, deletes: Path -> bool, stale: seq<Path>, archive: map<Text, Text>)
    requires NoDup(stale)
    ensures Conserved(Turns(files, Idle, deletes, stale), deletes, stale, archive)
       <==> var after := AfterTurns(files, Idle, deletes, stale);
            forall p :: p in files ==>
              || (p in after && after[p] == files[p])
              || (p.name in archive && archive[p.name] == files[p].content)
  {
    var found, after := Turns(files, Idle, deletes, stale), AfterTurns(files, Idle, deletes, stale);
    AloneTurns(files, deletes, stale);
    forall i | 0 <= i < |stale|
      ensures Works(found[i], deletes, stale[i]) <==> stale[i] in files && stale[i] !in after
      ensures stale[i] in files ==> stale[i] in found[i] && found[i][stale[i]] == files[stale[i]]
    {
      assert stale[i] !in stale[..i];
    }
    forall p | p in files && p !in after
      ensures p in stale
    {
    }
    if Conserved(found, deletes, stale, archive) {
      forall p | p in files && p !in after
        ensures p.name in archive && archive[p.name] == files[p].content
      {
        var i :| 0 <= i < |stale| && stale[i] == p;
      }
    }
  }

  // ---- Losses ----------------------------------------------------------------

  lemma {:induction false} FilterAll(works: Path -> bool, s: seq<Path>)
    requires forall p :: p in s ==> works(p)
    ensures Filter(works, s) == s
  {
    if s != [] {
      var front, p := s[..|s| - 1], s[|s| - 1];
      assert s == front + [p] && p in s;
      forall q | q in front
        ensures works(q)
      {
        assert q in s;
      }
      FilterAll(works, front);
    }
  }

  lemma TwoTurns(files: Files, p: Path, q: Path)
    requires p != q
    ensures Turns(files, Idle, Never, [p, q]) == [files, files]
    ensures Turns(files, Idle, Always, [p, q]) == [files, files - {p}]
  {
    assert [p, q][..1] == [p] && [p][..0] == [];
    assert Turns(files, Idle, Never, [p]) == [files] && AfterTurns(files, Idle, Never, [p]) == files;
    assert Turns(files, Idle, Always, [p]) == [files] && AfterTurns(files, Idle, Always, [p]) == files - {p};
  }

  lemma ArchiveOfTwo(files: Files, p: Path, q: Path)
    requires p in files && q in files
    ensures Archived([files, files], Always, [p, q]) == map[][p.name := files[p].content][q.name := files[q].content]
    ensures Hits([files, files], Always, [p, q]) == 2
  {
    assert [p, q][..1] == [p] && [files, files][..1] == [files];
    assert Archived([files], Always, [p]) == map[][p.name := files[p].content];
    assert Hits([files], Always, [p]) == 1;
  }

  /** Two stale files of one name in different directories: an undisturbed run reports no
      error and one content is gone. */
  lemma SameNameLosesContent(d: seq<Text>, e: seq<Text>, name: Text, x: Text, y: Text)
    requires d != e && x != y
    ensures var files: Files := map[Path(d, name) := Progress(0, x), Path(e, name) := Progress(0, y)];
      var listing := [Path(d, name), Path(e, name)];
      var archiving, deleting := Turns(files, Idle, Never, listing), Turns(files, Idle, Always, listing);
      && Lists(listing, files) && Stale(files, 1, listing) == listing
      && Hits(archiving, Always, listing) == 2 == Hits(deleting, Always, listing)
      && !Conserved(deleting, Always, listing, Archived(archiving, Always, listing))
  {
    var p, q := Path(d, name), Path(e, name);
    var files: Files := map[p := Progress(0, x), q := Progress(0, y)];
    FilterAll(StaleTest(files, 1), [p, q]);
    TwoTurns(files, p, q);
    ArchiveOfTwo(files, p, q);
    var deleting := [files, files - {p}];
    assert [p, q][..1] == [p] && deleting[..1] == [files];
    assert Hits([files], Always, [p]) == 1;
    assert Works(deleting[0], Always, [p, q][0]);
  }

  lemma OneTurn(files: Files, others: Others, deletes: Path -> bool, p: Path)
    ensures Turns(files, others, deletes, [p]) == [others(0, files)]
  {
    assert [p][..0] == [];
  }

  lemma OneFile(found: Files, works: Path -> bool, p: Path)
    ensures Hits([found], works, [p]) == if Works(found, works, p) then 1 else 0
    ensures Archived([found], works, [p]) == if Works(found, works, p) then map[p.name := found[p].content] else map[]
  {
    assert [p][..0] == [] && [found][..0] == [];
  }

  /** A file whose archiving fails is deleted all the same. */
  lemma ArchiveFailureLosesContent(p: Path, x: Text)
    ensures var files: Files := map[p := Progress(0, x)];
      var archiving, deleting := Turns(files, Idle, Never, [p]), Turns(files, Idle, Always, [p]);
      && Lists([p], files) && Stale(files, 1, [p]) == [p]
      && !Conserved(deleting, Always, [p], Archived(archiving, Never, [p]))
  {
    var files: Files := map[p := Progress(0, x)];
    FilterAll(StaleTest(files, 1), [p]);
    OneTurn(files, Idle, Never, p);
    OneTurn(files, Idle, Always, p);
    OneFile(files, Never, p);
    assert Works([files][0], Always, [p][0]);
  }

  function Rewrite(p: Path, content: Text, now: int): Others
  {
    (turn, files) => files[p := Progress(now, content)]
  }

  /** A stale file written anew between the two passes is deleted with its new content,
      however recent; the run reports no error. */
  lemma RewriteInBetweenLosesContent(p: Path, x: Text, y: Text, now: int)
    requires x != y
    ensures var files: Files := map[p := Progress(0, x)];
      var archiving := Turns(files, Idle, Never, [p]);
      var deleting := Turns(AfterTurns(files, Idle, Never, [p]), Rewrite(p, y, now), Always, [p]);
      && Lists([p], files) && Stale(files, 1, [p]) == [p]
      && Hits(archiving, Always, [p]) == 1 == Hits(deleting, Always, [p])
      && !Conserved(deleting, Always, [p], Archived(archiving, Always, [p]))
  {
    var files: Files := map[p := Progress(0, x)];
    FilterAll(StaleTest(files, 1), [p]);
    OneTurn(files, Idle, Never, p);
    var between := AfterTurns(files, Idle, Never, [p]);
    OneTurn(between, Rewrite(p, y, now), Always, p);
    var written := Rewrite(p, y, now)(0, between);
    OneFile(files, Always, p);
    OneFile(written, Always, p);
    assert Works([written][0], Always, [p][0]) && written[p].content == y;
  }

  // ---- Roots -----------------------------------------------------------------

  /** Two roots agree exactly when the file names are the same, counted with repetition,
      in whatever order the directories were walked. */
  lemma RootsAgree(hash: Text -> Text, a: seq<Text>, b: seq<Text>)
    requires forall t, u :: hash(t) == hash(u) ==> t == u
    requires forall t :: t in a || t in b ==> t != [] && NEWLINE !in t
    ensures MerkleRoot(hash, a) == MerkleRoot(hash, b) <==> multiset(a) == multiset(b)
  {
    SortedJoinInjective(a, b, NEWLINE);
  }
}
