/** JavaScript strings as sequences of UTF-16 code units, with the two things
    the program does to them as a whole: compare them, and join them with a
    separator. */
module Texts {
  import opened Collections
  import opened StableSort

  type CodeUnit = c: nat | c < 0x1_0000
  type Text = seq<CodeUnit>

  predicate Printable(s: string)
  {
    forall i :: 0 <= i < |s| ==> ' ' <= s[i] <= '~'
  }

  /** A constant of the program, given by its printable ASCII characters. */
  function Ascii(s: string): (t: Text)
    requires Printable(s)
    ensures |t| == |s| && forall i :: 0 <= i < |t| ==> 32 <= t[i] <= 126
  {
    seq(|s|, i requires 0 <= i < |s| => s[i] as CodeUnit)
  }

  /** A timestamp string together with what `Date.parse` makes of it: whole
      milliseconds, or nothing when it does not parse. */
  datatype Stamp = Stamp(text: Text, ms: Option<int>)

  /** The `<` of JavaScript strings: code unit by code unit. */
  predicate Less(a: Text, b: Text)
  {
    b != [] && (a == [] || a[0] < b[0] || (a[0] == b[0] && Less(a[1..], b[1..])))
  }

  predicate AtMost(a: Text, b: Text)
  {
    !Less(b, a)
  }

  lemma {:induction false} LessAsymmetric(a: Text, b: Text)
    ensures !(Less(a, b) && Less(b, a))
  {
    if a != [] && b != [] {
      LessAsymmetric(a[1..], b[1..]);
    }
  }

  lemma {:induction false} LessTotal(a: Text, b: Text)
    ensures Less(a, b) || Less(b, a) || a == b
  {
    if a != [] && b != [] {
      LessTotal(a[1..], b[1..]);
      assert a == [a[0]] + a[1..] && b == [b[0]] + b[1..];
    }
  }

  /** "Not below" is transitive, so `Less` is a strict total order. */
  lemma {:induction false} AtMostTransitive(a: Text, b: Text, c: Text)
    requires AtMost(a, b) && AtMost(b, c)
    ensures AtMost(a, c)
  {
    if a != [] && b != [] && c != [] {
      if a[0] == b[0] == c[0] {
        AtMostTransitive(a[1..], b[1..], c[1..]);
      }
    }
  }

  lemma AtMostOrder()
    ensures TotalPreorder<Text>(AtMost)
    ensures forall a: Text, b: Text :: AtMost(a, b) && AtMost(b, a) ==> a == b
  {
    forall a: Text, b: Text
      ensures AtMost(a, b) || AtMost(b, a)
      ensures AtMost(a, b) && AtMost(b, a) ==> a == b
    {
      LessAsymmetric(a, b);
      LessTotal(a, b);
    }
    forall a: Text, b: Text, c: Text | AtMost(a, b) && AtMost(b, c)
      ensures AtMost(a, c)
    {
      AtMostTransitive(a, b, c);
    }
  }

  function SortTexts(lines: seq<Text>): (r: seq<Text>)
  {
    Sort(AtMost, lines)
  }

  lemma SortTextsPermutes(lines: seq<Text>)
    ensures multiset(SortTexts(lines)) == multiset(lines)
  {
    SortPermutes(AtMost, lines);
  }

  /** Sorted lists of texts agree exactly when they hold the same texts equally often. */
  lemma SortTextsAgree(a: seq<Text>, b: seq<Text>)
    ensures SortTexts(a) == SortTexts(b) <==> multiset(a) == multiset(b)
  {
    AtMostOrder();
    SortAgrees(AtMost, a, b);
  }

  /** `lines.join(separator)` for a one-unit separator. */
  function Join(lines: seq<Text>, separator: CodeUnit): (r: Text)
  {
    if lines == [] then []
    else if |lines| == 1 then lines[0]
    else lines[0] + [separator] + Join(lines[1..], separator)
  }

  lemma {:induction false} SplitAtSeparator(u: Text, x: Text, v: Text, y: Text, separator: CodeUnit)
    requires separator !in u && separator !in v
    requires u + [separator] + x == v + [separator] + y
    ensures u == v && x == y
  {
    var whole := u + [separator] + x;
    assert whole[0] == (if u == [] then separator else u[0]);
    assert whole[0] == (if v == [] then separator else v[0]);
    assert whole[1..] == if u == [] then x else u[1..] + [separator] + x;
    assert whole[1..] == if v == [] then y else v[1..] + [separator] + y;
    if u != [] {
      SplitAtSeparator(u[1..], x, v[1..], y, separator);
      assert u == [u[0]] + u[1..] && v == [v[0]] + v[1..];
    }
  }

  /** Joining loses nothing when no line contains the separator and both lists
      have a line. */
  lemma {:induction false} JoinInjective(a: seq<Text>, b: seq<Text>, separator: CodeUnit)
    requires a != [] && b != []
    requires forall t :: t in a || t in b ==> separator !in t
    requires Join(a, separator) == Join(b, separator)
    ensures a == b
  {
    assert a[0] in a && b[0] in b;
    JoinHasSeparator(a, separator);
    JoinHasSeparator(b, separator);
    if |a| == 1 {
      assert a == [a[0]] && b == [b[0]];
    } else {
      SplitAtSeparator(a[0], Join(a[1..], separator), b[0], Join(b[1..], separator), separator);
      JoinInjective(a[1..], b[1..], separator);
      assert a == [a[0]] + a[1..] && b == [b[0]] + b[1..];
    }
  }

  lemma JoinHasSeparator(a: seq<Text>, separator: CodeUnit)
    requires a != [] && separator !in a[0]
    ensures separator in Join(a, separator) <==> |a| > 1
  {
  }

  /** Non-empty lines free of the separator: sorting and joining records exactly
      the multiset of lines, including the empty one. */
  lemma SortedJoinInjective(a: seq<Text>, b: seq<Text>, separator: CodeUnit)
    requires forall t :: t in a || t in b ==> t != [] && separator !in t
    ensures Join(SortTexts(a), separator) == Join(SortTexts(b), separator) <==> multiset(a) == multiset(b)
  {
    SortTextsAgree(a, b);
    var sa, sb := SortTexts(a), SortTexts(b);
    SortPermutes(AtMost, a);
    SortPermutes(AtMost, b);
    PermutationMembers(a, sa);
    PermutationMembers(b, sb);
    assert sa != [] ==> sa[0] in sa;
    assert sb != [] ==> sb[0] in sb;
    JoinNonEmpty(sa, separator);
    JoinNonEmpty(sb, separator);
    if Join(sa, separator) == Join(sb, separator) && sa != [] {
      JoinInjective(sa, sb, separator);
    }
  }

  lemma JoinNonEmpty(lines: seq<Text>, separator: CodeUnit)
    requires lines != [] ==> lines[0] != []
    ensures Join(lines, separator) == [] <==> lines == []
  {
  }
}
