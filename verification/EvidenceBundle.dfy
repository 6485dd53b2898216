/** What the evidence-bundle hash and the provider-binding hash are computed from,
    and how much those texts pin down. */
module EvidenceBundle {
  import opened Collections
  import opened Texts
  import opened CanonicalRecord

  const NEWLINE: CodeUnit := 10
  const SEPARATOR: CodeUnit := 31

  datatype Entry = Entry(cls: Text, id: Text, path: Text, record: Json)

  /** One line of the hashed text: class, id, path and record digest. */
  function Line(digest: Text -> Text, e: Entry): Text
  {
    e.cls + [SEPARATOR] + (e.id + [SEPARATOR] + (e.path + [SEPARATOR] + digest(Print(e.record))))
  }

  /** The text the bundle hash is taken of: the sorted lines, one per row. */
  function Preimage(digest: Text -> Text, entries: seq<Entry>): Text
  {
    Join(SortTexts(Map(e => Line(digest, e), entries)), NEWLINE)
  }

  /** An entry with its record in canonical form. */
  function Canonical(e: Entry): Entry
  {
    e.(record := Canon(e.record))
  }

  predicate Plain(t: Text)
  {
    SEPARATOR !in t
  }

  predicate PlainEntry(e: Entry)
  {
    Plain(e.cls) && Plain(e.id) && Plain(e.path)
  }

  /** The record digest never collides and is printed on one line. */
  ghost predicate Faithful(digest: Text -> Text)
  {
    && (forall t, u :: digest(t) == digest(u) ==> t == u)
    && (forall t :: NEWLINE !in digest(t))
  }

  // ---- Reading the lines back ------------------------------------------------

  /** Two lines, each followed by the end or a line break, read from one text: the first
      three separators delimit the fields, whatever line breaks those hold, and the next
      line break ends the digest. */
  lemma LinesSplit(digest: Text -> Text, e: Entry, u: Text, f: Entry, v: Text)
    requires Faithful(digest) && PlainEntry(e) && PlainEntry(f)
    requires (u == [] || u[0] == NEWLINE) && (v == [] || v[0] == NEWLINE)
    requires Line(digest, e) + u == Line(digest, f) + v
    ensures Canonical(e) == Canonical(f) && u == v
  {
    var d, g := digest(Print(e.record)), digest(Print(f.record));
    var x, y := e.path + [SEPARATOR] + (d + u), f.path + [SEPARATOR] + (g + v);
    assert Line(digest, e) + u == e.cls + [SEPARATOR] + (e.id + [SEPARATOR] + x);
    assert Line(digest, f) + v == f.cls + [SEPARATOR] + (f.id + [SEPARATOR] + y);
    SplitAtSeparator(e.cls, e.id + [SEPARATOR] + x, f.cls, f.id + [SEPARATOR] + y, SEPARATOR);
    SplitAtSeparator(e.id, x, f.id, y, SEPARATOR);
    SplitAtSeparator(e.path, d + u, f.path, g + v, SEPARATOR);
    DigestEnds(d, u, g, v);
    PrintDeterminesCanon(e.record, f.record);
  }

  lemma {:induction false} DigestEnds(d: Text, u: Text, g: Text, v: Text)
    requires NEWLINE !in d && NEWLINE !in g
    requires (u == [] || u[0] == NEWLINE) && (v == [] || v[0] == NEWLINE)
    requires d + u == g + v
    ensures d == g && u == v
  {
    var whole := d + u;
    assert whole != [] ==> whole[0] == if d == [] then NEWLINE else d[0];
    assert whole != [] ==> whole[0] == if g == [] then NEWLINE else g[0];
    if d != [] && g != [] {
      assert whole[1..] == d[1..] + u && whole[1..] == g[1..] + v;
      DigestEnds(d[1..], u, g[1..], v);
      assert d == [d[0]] + d[1..] && g == [g[0]] + g[1..];
    } else {
      assert d == [] ==> whole == u;
      assert g == [] ==> whole == v;
    }
  }

  lemma LineDetermines(digest: Text -> Text, e: Entry, f: Entry)
    requires Faithful(digest) && PlainEntry(e) && PlainEntry(f)
    ensures Line(digest, e) == Line(digest, f) <==> Canonical(e) == Canonical(f)
  {
    PrintDeterminesCanon(e.record, f.record);
    if Line(digest, e) == Line(digest, f) {
      assert Line(digest, e) + [] == Line(digest, f) + [];
      LinesSplit(digest, e, [], f, []);
    }
  }

  /** A text that is the line of an entry without separators. */
  ghost predicate IsLine(digest: Text -> Text, t: Text)
  {
    exists e :: PlainEntry(e) && t == Line(digest, e)
  }

  function Rest(lines: seq<Text>): Text
    requires lines != []
  {
    if |lines| == 1 then [] else [NEWLINE] + Join(lines[1..], NEWLINE)
  }

  lemma JoinHead(lines: seq<Text>)
    requires lines != []
    ensures Join(lines, NEWLINE) == lines[0] + Rest(lines)
  {
  }

  /** Joined lines are read back one by one, though a line may itself hold line breaks. */
  lemma {:induction false} LinesInjective(digest: Text -> Text, a: seq<Text>, b: seq<Text>)
    requires Faithful(digest) && a != [] && b != []
    requires forall t :: t in a || t in b ==> IsLine(digest, t)
    requires Join(a, NEWLINE) == Join(b, NEWLINE)
    ensures a == b
  {
    JoinHead(a);
    JoinHead(b);
    assert a[0] in a && b[0] in b;
    var e :| PlainEntry(e) && a[0] == Line(digest, e);
    var f :| PlainEntry(f) && b[0] == Line(digest, f);
    LinesSplit(digest, e, Rest(a), f, Rest(b));
    LineDetermines(digest, e, f);
    if |a| > 1 {
      assert Join(a[1..], NEWLINE) == Rest(a)[1..] && Join(b[1..], NEWLINE) == Rest(b)[1..];
      LinesInjective(digest, a[1..], b[1..]);
    }
    assert a == [a[0]] + a[1..] && b == [b[0]] + b[1..];
  }

  lemma SortedLinesInjective(digest: Text -> Text, a: seq<Text>, b: seq<Text>)
    requires Faithful(digest) && forall t :: t in a || t in b ==> IsLine(digest, t)
    ensures Join(SortTexts(a), NEWLINE) == Join(SortTexts(b), NEWLINE) <==> multiset(a) == multiset(b)
  {
    SortTextsAgree(a, b);
    SortTextsPermutes(a);
    SortTextsPermutes(b);
    var sa, sb := SortTexts(a), SortTexts(b);
    PermutationMembers(a, sa);
    PermutationMembers(b, sb);
    assert sa != [] ==> sa[0] in sa;
    assert sb != [] ==> sb[0] in sb;
    JoinNonEmpty(sa, NEWLINE);
    JoinNonEmpty(sb, NEWLINE);
    if Join(sa, NEWLINE) == Join(sb, NEWLINE) && sa != [] {
      LinesInjective(digest, sa, sb);
    }
  }

  /** Two bundles have the same hashed text exactly when they are rearrangements of one
      another, records taken up to key order. */
  lemma BundleIdentity(digest: Text -> Text, a: seq<Entry>, b: seq<Entry>)
    requires Faithful(digest) && forall e :: e in a || e in b ==> PlainEntry(e)
    ensures Preimage(digest, a) == Preimage(digest, b)
       <==> multiset(Map(Canonical, a)) == multiset(Map(Canonical, b))
  {
    var line := e => Line(digest, e);
    forall t | t in Map(line, a) || t in Map(line, b)
      ensures IsLine(digest, t)
    {
      assert forall e :: e in a || e in b ==> IsLine(digest, Line(digest, e));
    }
    SortedLinesInjective(digest, Map(line, a), Map(line, b));
    forall e, f | e in a && f in b
      ensures line(e) == line(f) <==> Canonical(e) == Canonical(f)
    {
      LineDetermines(digest, e, f);
    }
    if multiset(Map(line, a)) == multiset(Map(line, b)) {
      MapTransfer(line, Canonical, a, b);
    }
    if multiset(Map(Canonical, a)) == multiset(Map(Canonical, b)) {
      MapTransfer(Canonical, line, a, b);
    }
  }

  /** Replacing one record leaves the hashed text alone exactly when the new record is
      the same up to key order. */
  lemma TamperDetected(digest: Text -> Text, a: seq<Entry>, i: nat, record: Json)
    requires Faithful(digest) && i < |a| && forall e :: e in a ==> PlainEntry(e)
    requires DistinctKeys(a[i].record) && DistinctKeys(record)
    ensures Preimage(digest, a[i := a[i].(record := record)]) == Preimage(digest, a) <==> Same(a[i].record, record)
  {
    var e := a[i].(record := record);
    forall x | x in a[i := e]
      ensures PlainEntry(x)
    {
      assert x == e || x in a;
      assert a[i] in a;
    }
    BundleIdentity(digest, a[i := e], a);
    CanonSame(a[i].record, record);
    OneReplaced(Canonical, a, i, e);
  }

  lemma OneReplaced<A, B>(f: A -> B, a: seq<A>, i: nat, e: A)
    requires i < |a|
    ensures multiset(Map(f, a[i := e])) == multiset(Map(f, a)) <==> f(e) == f(a[i])
  {
    var u, v := a[..i], a[i + 1..];
    assert a == u + ([a[i]] + v) && a[i := e] == u + ([e] + v);
    MapSplit(f, u, e, u, a[i], v);
    MapSplit(f, u, e, u, e, v);
    OneDiffers(Map(f, u), f(e), f(a[i]), Map(f, v));
  }

  lemma OneDiffers<T>(u: seq<T>, x: T, y: T, v: seq<T>)
    ensures multiset(u + ([x] + v)) == multiset(u + ([y] + v)) <==> x == y
  {
    assert multiset(u + ([x] + v)) == multiset(u) + multiset(v) + multiset{x};
    assert multiset(u + ([y] + v)) == multiset(u) + multiset(v) + multiset{y};
    if x != y {
      assert multiset(u + ([x] + v))[x] == (multiset(u) + multiset(v))[x] + 1;
      assert multiset(u + ([y] + v))[x] == (multiset(u) + multiset(v))[x];
    }
  }

  // ---- When a hashed text is shared ------------------------------------------

  /** Another bundle, not a rearrangement of `a`, has the hashed text of `a`. */
  ghost predicate Shared(digest: Text -> Text, a: seq<Entry>)
  {
    exists b :: Preimage(digest, b) == Preimage(digest, a) && multiset(Map(Canonical, b)) != multiset(Map(Canonical, a))
  }

  /** Another entry, differing beyond key order, has the line of `e`. */
  ghost predicate LineShared(digest: Text -> Text, e: Entry)
  {
    exists f :: Line(digest, f) == Line(digest, e) && Canonical(f) != Canonical(e)
  }

  /** A separator inside a field lets the border between two fields move. */
  lemma SeparatorCollision(digest: Text -> Text, e: Entry) returns (f: Entry)
    requires !PlainEntry(e)
    ensures Line(digest, f) == Line(digest, e) && Canonical(f) != Canonical(e)
  {
    var S, d := [SEPARATOR], digest(Print(e.record));
    if !Plain(e.cls) {
      var u, v := Cut(e.cls);
      f := e.(cls := u, id := v + S + e.id);
      assert e.cls + S + (e.id + S + (e.path + S + d)) == u + S + ((v + S + e.id) + S + (e.path + S + d));
    } else if !Plain(e.id) {
      var u, v := Cut(e.id);
      f := e.(cls := e.cls + S + u, id := v);
      assert e.cls + S + (e.id + S + (e.path + S + d)) == (e.cls + S + u) + S + (v + S + (e.path + S + d));
      assert |f.cls| > |e.cls|;
    } else {
      var u, v := Cut(e.path);
      f := e.(id := e.id + S + u, path := v);
      assert e.id + S + (e.path + S + d) == (e.id + S + u) + S + (v + S + d);
      assert |f.id| > |e.id|;
    }
  }

  lemma Cut(t: Text) returns (u: Text, v: Text)
    requires !Plain(t)
    ensures t == u + [SEPARATOR] + v && |u| < |t|
  {
    var i :| 0 <= i < |t| && t[i] == SEPARATOR;
    u, v := t[..i], t[i + 1..];
  }

  function Separators(t: Text): nat
  {
    var units: multiset<CodeUnit> := multiset(t);
    units[SEPARATOR]
  }

  lemma SeparatorsConcat(t: Text, u: Text)
    ensures Separators(t + u) == Separators(t) + Separators(u)
  {
  }

  /** A line holds three separators, and one more for each inside a field. */
  lemma LineSeparators(digest: Text -> Text, e: Entry)
    requires Plain(digest(Print(e.record)))
    ensures Separators(Line(digest, e)) == 3 + Separators(e.cls) + Separators(e.id) + Separators(e.path)
  {
    var S, d := [SEPARATOR], digest(Print(e.record));
    var x := e.path + S + d;
    var y := e.id + S + x;
    SeparatorsConcat(e.path, S);
    SeparatorsConcat(e.path + S, d);
    SeparatorsConcat(e.id, S);
    SeparatorsConcat(e.id + S, x);
    SeparatorsConcat(e.cls, S);
    SeparatorsConcat(e.cls + S, y);
    assert Separators(S) == 1 && Separators(d) == 0;
  }

  lemma PlainLine(digest: Text -> Text, e: Entry, f: Entry)
    requires (forall t :: Plain(digest(t))) && PlainEntry(e) && Line(digest, f) == Line(digest, e)
    ensures PlainEntry(f)
  {
    LineSeparators(digest, e);
    LineSeparators(digest, f);
  }

  /** Reading a line back is certain exactly when no field holds a separator. */
  lemma LineSharedIff(digest: Text -> Text, e: Entry)
    requires Faithful(digest) && forall t :: Plain(digest(t))
    ensures LineShared(digest, e) <==> SEPARATOR in e.cls || SEPARATOR in e.id || SEPARATOR in e.path
  {
    if PlainEntry(e) {
      forall f | Line(digest, f) == Line(digest, e)
        ensures Canonical(f) == Canonical(e)
      {
        PlainLine(digest, e, f);
        LineDetermines(digest, f, e);
      }
    } else {
      var f := SeparatorCollision(digest, e);
    }
  }

  lemma {:induction false} JoinSeparators(lines: seq<Text>)
    requires forall t :: t in lines ==> Separators(t) >= 3
    ensures Separators(Join(lines, NEWLINE)) >= 3 * |lines|
  {
    if lines != [] {
      assert lines[0] in lines;
      JoinSeparators(lines[1..]);
      if |lines| > 1 {
        SeparatorsConcat(lines[0], [NEWLINE]);
        SeparatorsConcat(lines[0] + [NEWLINE], Join(lines[1..], NEWLINE));
      }
    }
  }

  lemma PreimageOfOne(digest: Text -> Text, e: Entry)
    ensures Preimage(digest, [e]) == Line(digest, e)
  {
    var lines := Map(f => Line(digest, f), [e]);
    assert lines == [Line(digest, e)];
    SortTextsPermutes(lines);
    PermutationMembers(lines, SortTexts(lines));
    assert SortTexts(lines)[0] in SortTexts(lines);
  }

  /** A bundle with the hashed text of a single plain entry is a single entry. */
  lemma OnlyOneEntry(digest: Text -> Text, e: Entry, b: seq<Entry>)
    requires (forall t :: Plain(digest(t))) && PlainEntry(e) && Preimage(digest, b) == Line(digest, e)
    ensures |b| == 1
  {
    var lines := Map(f => Line(digest, f), b);
    SortTextsPermutes(lines);
    PermutationMembers(lines, SortTexts(lines));
    forall t | t in SortTexts(lines)
      ensures Separators(t) >= 3
    {
      var i :| 0 <= i < |lines| && lines[i] == t;
      LineSeparators(digest, b[i]);
    }
    JoinSeparators(SortTexts(lines));
    LineSeparators(digest, e);
    assert |b| == 0 ==> SortTexts(lines) == [];
  }

  ghost predicate SomeLine(digest: Text -> Text, t: Text)
  {
    exists e :: t == Line(digest, e)
  }

  /** Text set before a line goes into its first field. */
  lemma {:induction false} JoinIsLine(digest: Text -> Text, lines: seq<Text>) returns (f: Entry)
    requires lines != [] && forall t :: t in lines ==> SomeLine(digest, t)
    ensures Join(lines, NEWLINE) == Line(digest, f)
  {
    if |lines| == 1 {
      assert lines[0] in lines;
      f :| lines[0] == Line(digest, f);
    } else {
      var g := JoinIsLine(digest, lines[1..]);
      var front := lines[0] + [NEWLINE];
      f := g.(cls := front + g.cls);
      var tail := g.id + [SEPARATOR] + (g.path + [SEPARATOR] + digest(Print(g.record)));
      assert front + (g.cls + [SEPARATOR] + tail) == (front + g.cls) + [SEPARATOR] + tail;
    }
  }

  /** The whole of a longer bundle fits into the class field of its last entry. */
  lemma LongerIsShared(digest: Text -> Text, a: seq<Entry>)
    requires |a| >= 2
    ensures Shared(digest, a)
  {
    var lines := Map(f => Line(digest, f), a);
    SortTextsPermutes(lines);
    PermutationMembers(lines, SortTexts(lines));
    forall t | t in SortTexts(lines)
      ensures SomeLine(digest, t)
    {
      var i :| 0 <= i < |lines| && lines[i] == t;
      assert t == Line(digest, a[i]);
    }
    var f := JoinIsLine(digest, SortTexts(lines));
    PreimageOfOne(digest, f);
    assert |multiset(Map(Canonical, [f]))| == 1 && |multiset(Map(Canonical, a))| >= 2;
  }

  /** Exactly which bundles share their hashed text with one that is no rearrangement of
      them: all of two or more entries, and a single entry with a separator in a field.
      So the identity above needs its premise on both bundles. */
  lemma SharedIff(digest: Text -> Text, a: seq<Entry>)
    requires Faithful(digest) && forall t :: Plain(digest(t))
    ensures Shared(digest, a) <==> |a| >= 2 || (|a| == 1 && !PlainEntry(a[0]))
  {
    if |a| >= 2 {
      LongerIsShared(digest, a);
    } else if |a| == 1 {
      assert a == [a[0]];
      PreimageOfOne(digest, a[0]);
      if PlainEntry(a[0]) {
        SoleNotShared(digest, a[0]);
      } else {
        var f := SeparatorCollision(digest, a[0]);
        PreimageOfOne(digest, f);
        OneDiffers([], Canonical(f), Canonical(a[0]), []);
        assert Map(Canonical, [f]) == [] + ([Canonical(f)] + []) && Map(Canonical, a) == [] + ([Canonical(a[0])] + []);
      }
    } else {
      NoneShared(digest);
    }
  }

  lemma SoleNotShared(digest: Text -> Text, e: Entry)
    requires Faithful(digest) && (forall t :: Plain(digest(t))) && PlainEntry(e)
    ensures !Shared(digest, [e])
  {
    PreimageOfOne(digest, e);
    LineSharedIff(digest, e);
    forall b | Preimage(digest, b) == Preimage(digest, [e])
      ensures multiset(Map(Canonical, b)) == multiset(Map(Canonical, [e]))
    {
      OnlyOneEntry(digest, e, b);
      assert b == [b[0]];
      PreimageOfOne(digest, b[0]);
      assert Map(Canonical, b) == Map(Canonical, [e]);
    }
  }

  lemma PreimageNonEmpty(digest: Text -> Text, b: seq<Entry>)
    requires b != []
    ensures Preimage(digest, b) != []
  {
    var lines := Map(f => Line(digest, f), b);
    SortTextsPermutes(lines);
    PermutationMembers(lines, SortTexts(lines));
    assert SortTexts(lines)[0] in SortTexts(lines);
    JoinNonEmpty(SortTexts(lines), NEWLINE);
  }

  lemma NoneShared(digest: Text -> Text)
    ensures !Shared(digest, [])
  {
    assert Map(f => Line(digest, f), []) == [];
    forall b | Preimage(digest, b) == Preimage(digest, [])
      ensures b == []
    {
      if b != [] {
        PreimageNonEmpty(digest, b);
      }
    }
  }

  // ---- Provider binding ------------------------------------------------------

  /** What an approval is bound to besides its evidence. */
  datatype Binding = Binding(model: Text, action: Text, workflowId: Text, attemptId: Text, profileRef: Text)

  function Fields(b: Binding): seq<Text>
  {
    [b.model, b.action, b.workflowId, b.attemptId, b.profileRef]
  }

  /** The text the provider-binding hash is taken of. */
  function Material(b: Binding): Text
  {
    Join(Fields(b), SEPARATOR)
  }

  /** The binding text determines model, action, workflow, attempt and profile. */
  lemma MaterialInjective(a: Binding, b: Binding)
    requires forall t :: t in Fields(a) || t in Fields(b) ==> SEPARATOR !in t
    ensures Material(a) == Material(b) <==> a == b
  {
    if Material(a) == Material(b) {
      JoinInjective(Fields(a), Fields(b), SEPARATOR);
      assert Fields(a)[0] == Fields(b)[0] && Fields(a)[1] == Fields(b)[1] && Fields(a)[2] == Fields(b)[2]
          && Fields(a)[3] == Fields(b)[3] && Fields(a)[4] == Fields(b)[4];
    }
  }

  lemma MaterialShape(b: Binding)
    ensures var S := [SEPARATOR];
      Material(b) == b.model + S + (b.action + S + (b.workflowId + S + (b.attemptId + S + b.profileRef)))
  {
    var four := [b.action, b.workflowId, b.attemptId, b.profileRef];
    assert Fields(b)[1..] == four && four[1..] == [b.workflowId, b.attemptId, b.profileRef];
    assert four[1..][1..] == [b.attemptId, b.profileRef] && four[1..][1..][1..] == [b.profileRef];
    assert Join([b.profileRef], SEPARATOR) == b.profileRef;
    assert Join([b.attemptId, b.profileRef], SEPARATOR) == b.attemptId + [SEPARATOR] + b.profileRef;
    assert Join(four[1..], SEPARATOR) == b.workflowId + [SEPARATOR] + Join(four[1..][1..], SEPARATOR);
    assert Join(four, SEPARATOR) == b.action + [SEPARATOR] + Join(four[1..], SEPARATOR);
  }

  lemma MaterialSeparators(b: Binding)
    ensures Separators(Material(b)) == 4 + Separators(b.model) + Separators(b.action) + Separators(b.workflowId)
                                         + Separators(b.attemptId) + Separators(b.profileRef)
  {
    MaterialShape(b);
    var S := [SEPARATOR];
    var x := b.attemptId + S + b.profileRef;
    var y := b.workflowId + S + x;
    var z := b.action + S + y;
    SeparatedOnce(b.attemptId, b.profileRef);
    SeparatedOnce(b.workflowId, x);
    SeparatedOnce(b.action, y);
    SeparatedOnce(b.model, z);
  }

  lemma SeparatedOnce(t: Text, u: Text)
    ensures Separators(t + [SEPARATOR] + u) == Separators(t) + 1 + Separators(u)
  {
    SeparatorsConcat(t, [SEPARATOR]);
    SeparatorsConcat(t + [SEPARATOR], u);
    assert Separators([SEPARATOR]) == 1;
  }

  predicate PlainBinding(b: Binding)
  {
    Plain(b.model) && Plain(b.action) && Plain(b.workflowId) && Plain(b.attemptId) && Plain(b.profileRef)
  }

  /** Moving the border between two fields when one of them holds a separator. */
  lemma BorderMoves(a: Binding) returns (b: Binding)
    requires !PlainBinding(a)
    ensures b != a && Material(b) == Material(a)
  {
    var S := [SEPARATOR];
    if !Plain(a.model) {
      var u, v := Cut(a.model);
      b := a.(model := u, action := v + S + a.action);
    } else if !Plain(a.action) {
      var u, v := Cut(a.action);
      b := a.(action := u, workflowId := v + S + a.workflowId);
    } else if !Plain(a.workflowId) {
      var u, v := Cut(a.workflowId);
      b := a.(workflowId := u, attemptId := v + S + a.attemptId);
    } else if !Plain(a.attemptId) {
      var u, v := Cut(a.attemptId);
      b := a.(attemptId := u, profileRef := v + S + a.profileRef);
    } else {
      var u, v := Cut(a.profileRef);
      b := a.(attemptId := a.attemptId + S + u, profileRef := v);
      assert |b.attemptId| > |a.attemptId|;
    }
    MaterialShape(a);
    MaterialShape(b);
  }

  /** Another binding has the same text exactly when some field holds a separator. */
  lemma MaterialSharedIff(a: Binding)
    ensures (exists b :: b != a && Material(b) == Material(a)) <==> !PlainBinding(a)
  {
    if PlainBinding(a) {
      forall b | Material(b) == Material(a)
        ensures b == a
      {
        MaterialSeparators(a);
        MaterialSeparators(b);
        MaterialInjective(a, b);
      }
    } else {
      var b := BorderMoves(a);
    }
  }
}
