/** The walk that lists the progress files: a loop over an explicit stack of directories,
    against a recursive account of the same tree. */
module ProgressWalk {
  import opened Collections
  import opened Texts
  import opened CompactionRun

  datatype Node = File(modified: int) | Link | Dir(children: seq<Child>)

  datatype Child = Child(name: Text, node: Node)

  datatype Hit = Hit(path: Path, modified: int)

  /** `prefixed` is the file name prefix test, `known` the full pattern. */
  datatype NameTests = NameTests(prefixed: Text -> bool, known: Text -> bool)

  predicate Skipped(name: Text)
  {
    name == Ascii("archive") || name == Ascii(".locks")
  }

  /** The progress files under a directory. Links and skipped names are passed over. */
  ghost function Hits(t: NameTests, dir: seq<Text>, children: seq<Child>): multiset<Hit>
    decreases children
  {
    if children == [] then multiset{} else HitsOf(t, dir, children[0]) + Hits(t, dir, children[1..])
  }

  ghost function HitsOf(t: NameTests, dir: seq<Text>, c: Child): multiset<Hit>
    decreases c
  {
    if Skipped(c.name) then multiset{}
    else
      match c.node
      case Link => multiset{}
      case Dir(children) => Hits(t, dir + [c.name], children)
      case File(modified) => if t.prefixed(c.name) then multiset{Hit(Path(dir, c.name), modified)} else multiset{}
  }

  /** Some file under the directory has the prefix but not the pattern. */
  ghost predicate Unknown(t: NameTests, children: seq<Child>)
  {
    children != [] && (UnknownIn(t, children[0]) || Unknown(t, children[1..]))
  }

  ghost predicate UnknownIn(t: NameTests, c: Child)
  {
    && !Skipped(c.name)
    && match c.node
       case Link => false
       case Dir(children) => Unknown(t, children)
       case File(_) => t.prefixed(c.name) && !t.known(c.name)
  }

  function Size(children: seq<Child>): nat
  {
    if children == [] then 0 else SizeOf(children[0]) + Size(children[1..])
  }

  function SizeOf(c: Child): nat
  {
    match c.node
    case Dir(children) => 1 + Size(children)
    case _ => 1
  }

  /** A directory waiting on the stack. */
  datatype Frame = Frame(dir: seq<Text>, children: seq<Child>)

  ghost function StackHits(t: NameTests, stack: seq<Frame>): multiset<Hit>
  {
    if stack == [] then multiset{}
    else StackHits(t, stack[..|stack| - 1]) + Hits(t, stack[|stack| - 1].dir, stack[|stack| - 1].children)
  }

  ghost predicate StackUnknown(t: NameTests, stack: seq<Frame>)
  {
    stack != [] && (StackUnknown(t, stack[..|stack| - 1]) || Unknown(t, stack[|stack| - 1].children))
  }

  ghost function StackSize(stack: seq<Frame>): nat
  {
    if stack == [] then 0 else StackSize(stack[..|stack| - 1]) + 1 + Size(stack[|stack| - 1].children)
  }

  lemma Push(t: NameTests, stack: seq<Frame>, f: Frame)
    ensures StackHits(t, stack + [f]) == StackHits(t, stack) + Hits(t, f.dir, f.children)
    ensures StackUnknown(t, stack + [f]) <==> StackUnknown(t, stack) || Unknown(t, f.children)
    ensures StackSize(stack + [f]) == StackSize(stack) + 1 + Size(f.children)
  {
  }

  /** `None` where the program throws: exactly when some file name has the prefix but not
      the pattern. Otherwise the stack loop finds what the recursion finds, each file as
      often. */
  method ListProgress(t: NameTests, root: seq<Child>) returns (r: Option<seq<Hit>>)
    ensures r.None? <==> Unknown(t, root)
    ensures r.Some? ==> multiset(r.value) == Hits(t, [], root)
  {
    var files: seq<Hit> := [];
    var stack := [Frame([], root)];
    assert [] + [Frame([], root)] == stack;
    Push(t, [], Frame([], root));
    while stack != []
      invariant multiset(files) + StackHits(t, stack) == Hits(t, [], root)
      invariant StackUnknown(t, stack) <==> Unknown(t, root)
      decreases StackSize(stack)
    {
      var frame := stack[|stack| - 1];
      stack := stack[..|stack| - 1];
      var ok;
      ok, files, stack := VisitDirectory(t, frame, files, stack);
      if !ok {
        return None;
      }
    }
    return Some(files);
  }

  lemma NextChild(t: NameTests, dir: seq<Text>, children: seq<Child>, i: nat)
    requires i < |children|
    ensures Hits(t, dir, children[i..]) == HitsOf(t, dir, children[i]) + Hits(t, dir, children[i + 1..])
    ensures Unknown(t, children[i..]) <==> UnknownIn(t, children[i]) || Unknown(t, children[i + 1..])
    ensures Size(children[i..]) == SizeOf(children[i]) + Size(children[i + 1..])
  {
    assert children[i..][0] == children[i] && children[i..][1..] == children[i + 1..];
  }

  /** One directory taken from the stack: its progress files are listed, its directories
      pushed; `ok` turns false on an unknown name. */
  method VisitDirectory(t: NameTests, frame: Frame, before: seq<Hit>, rest: seq<Frame>)
    returns (ok: bool, files: seq<Hit>, stack: seq<Frame>)
    ensures ok ==>
      (multiset(files) + StackHits(t, stack)
       == multiset(before) + StackHits(t, rest) + Hits(t, frame.dir, frame.children))
    ensures ok ==> (StackUnknown(t, stack) <==> StackUnknown(t, rest) || Unknown(t, frame.children))
    ensures ok ==> StackSize(stack) <= StackSize(rest) + Size(frame.children)
    ensures !ok ==> Unknown(t, frame.children)
  {
    ok, files, stack := true, before, rest;
    var children := frame.children;
    assert children[0..] == children;
    for i := 0 to |children|
      invariant multiset(files) + StackHits(t, stack) + Hits(t, frame.dir, children[i..])
             == multiset(before) + StackHits(t, rest) + Hits(t, frame.dir, children)
      invariant StackUnknown(t, stack) || Unknown(t, children[i..]) <==> StackUnknown(t, rest) || Unknown(t, children)
      invariant Unknown(t, children[i..]) ==> Unknown(t, children)
      invariant StackSize(stack) + Size(children[i..]) <= StackSize(rest) + Size(children)
    {
      var c := children[i];
      NextChild(t, frame.dir, children, i);
      if Skipped(c.name) || c.node.Link? {
        continue;
      }
      if c.node.Dir? {
        Push(t, stack, Frame(frame.dir + [c.name], c.node.children));
        stack := stack + [Frame(frame.dir + [c.name], c.node.children)];
      } else if t.prefixed(c.name) {
        if !t.known(c.name) {
          ok := false;
          return;
        }
        files := files + [Hit(Path(frame.dir, c.name), c.node.modified)];
      }
    }
    assert children[|children|..] == [];
  }

  /** Directories called `archive` and `.locks` are passed over, every other is walked. */
  lemma OnlyTwoNamesSkipped(t: NameTests, dir: seq<Text>, name: Text, children: seq<Child>)
    ensures Hits(t, dir, [Child(name, Dir(children))])
         == if name in {Ascii("archive"), Ascii(".locks")} then multiset{} else Hits(t, dir + [name], children)
  {
    var c := Child(name, Dir(children));
    assert [c][0] == c && [c][1..] == [];
  }

  // ---- Each file once --------------------------------------------------------

  /** No directory has two entries of one name. */
  ghost predicate DistinctEntries(children: seq<Child>)
  {
    && (forall i, j :: 0 <= i < j < |children| ==> children[i].name != children[j].name)
    && (forall i :: 0 <= i < |children| && children[i].node.Dir? ==> DistinctEntries(children[i].node.children))
  }

  predicate Below(dir: seq<Text>, p: Path)
  {
    dir <= p.dir
  }

  /** Files found for an entry lie under it: in its directory and name, or below it. */
  predicate At(dir: seq<Text>, name: Text, p: Path)
  {
    p == Path(dir, name) || dir + [name] <= p.dir
  }

  lemma {:induction false} HitsAreBelow(t: NameTests, dir: seq<Text>, children: seq<Child>, h: Hit)
    requires h in Hits(t, dir, children)
    ensures exists i :: 0 <= i < |children| && At(dir, children[i].name, h.path)
    ensures Below(dir, h.path)
    decreases children, 0
  {
    if h in HitsOf(t, dir, children[0]) {
      HitIsAt(t, dir, children[0], h);
    } else {
      HitsAreBelow(t, dir, children[1..], h);
      var i :| 0 <= i < |children| - 1 && At(dir, children[1..][i].name, h.path);
      assert children[i + 1].name == children[1..][i].name;
    }
  }

  lemma {:induction false} HitIsAt(t: NameTests, dir: seq<Text>, c: Child, h: Hit)
    requires h in HitsOf(t, dir, c)
    ensures At(dir, c.name, h.path) && Below(dir, h.path)
    decreases c, 1
  {
    if c.node.Dir? {
      HitsAreBelow(t, dir + [c.name], c.node.children, h);
      assert dir <= dir + [c.name];
    }
  }

  lemma AtDiffers(dir: seq<Text>, a: Text, b: Text, p: Path)
    requires At(dir, a, p) && At(dir, b, p)
    ensures a == b
  {
    assert dir + [a] <= p.dir ==> p.dir[|dir|] == a;
    assert dir + [b] <= p.dir ==> p.dir[|dir|] == b;
  }

  /** Each file is found once: two finds of one path are one find. */
  lemma {:induction false} EachPathOnce(t: NameTests, dir: seq<Text>, children: seq<Child>, h: Hit, g: Hit)
    requires DistinctEntries(children) && h in Hits(t, dir, children) && g in Hits(t, dir, children) && h.path == g.path
    ensures h == g && Hits(t, dir, children)[h] == 1
    decreases children
  {
    var c, rest := children[0], children[1..];
    assert forall i :: 0 <= i < |rest| ==> rest[i] == children[i + 1];
    if h in HitsOf(t, dir, c) {
      NotInBoth(t, dir, children, h, g);
      if c.node.Dir? {
        EachPathOnce(t, dir + [c.name], c.node.children, h, g);
      }
    } else {
      if g in HitsOf(t, dir, c) {
        NotInBoth(t, dir, children, g, h);
      }
      EachPathOnce(t, dir, rest, h, g);
    }
  }

  lemma NotInBoth(t: NameTests, dir: seq<Text>, children: seq<Child>, h: Hit, g: Hit)
    requires DistinctEntries(children) && children != [] && h in HitsOf(t, dir, children[0]) && h.path == g.path
    ensures g !in Hits(t, dir, children[1..])
  {
    HitIsAt(t, dir, children[0], h);
    if g in Hits(t, dir, children[1..]) {
      HitsAreBelow(t, dir, children[1..], g);
      var i :| 0 <= i < |children| - 1 && At(dir, children[1..][i].name, g.path);
      assert children[1..][i] == children[i + 1];
      AtDiffers(dir, children[0].name, children[1..][i].name, g.path);
    }
  }

  function PathOf(h: Hit): Path { h.path }

  /** So the listing a run starts from names every file once, as `Compact` takes it. */
  lemma ListingNamesEachFileOnce(t: NameTests, root: seq<Child>, listing: seq<Hit>)
    requires DistinctEntries(root) && multiset(listing) == Hits(t, [], root)
    ensures NoDup(Map(PathOf, listing))
  {
    forall i, j | 0 <= i < j < |listing|
      ensures listing[i].path != listing[j].path
    {
      if listing[i].path == listing[j].path {
        assert listing[i] in multiset(listing) && listing[j] in multiset(listing);
        EachPathOnce(t, [], root, listing[i], listing[j]);
        TwiceCounts(listing, i, j);
      }
    }
  }

  lemma TwiceCounts<T>(s: seq<T>, i: nat, j: nat)
    requires i < j < |s| && s[i] == s[j]
    ensures multiset(s)[s[i]] >= 2
  {
    assert s == s[..j] + ([s[j]] + s[j + 1..]);
    assert multiset(s) == multiset(s[..j]) + multiset{s[j]} + multiset(s[j + 1..]);
    assert s[i] in s[..j];
  }
}
