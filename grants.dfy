/** The normalisation of MySQL grant text that the build uses to compare a
    required grant with the rows of `SHOW GRANTS` (`_get_sorted_grant` in
    python/saliweb/build/__init__.py): the comma-separated column list
    between the first `(` and the last `)` is split, stripped, sorted and
    joined again with `", "`. The regular expression
    `(.*?\()(.*)(\).*)$` is modelled by what it matches: `.` does not match
    a line feed and `$` also matches just before one final line feed. */
module Grants {
  import opened Base
  import opened Text

  // ---------------------------------------------------------------------
  // Python's order on `str` and `list.sort`
  // ---------------------------------------------------------------------

  /** `a <= b` on Python strings: code point by code point, a proper prefix
      first. */
  predicate LessEq(a: string, b: string)
    decreases |a|
  {
    a == [] || (b != [] && (a[0] < b[0] || (a[0] == b[0] && LessEq(a[1..], b[1..]))))
  }

  lemma {:induction false} LessEqReflexive(a: string)
    ensures LessEq(a, a)
    decreases |a|
  {
    if a != [] {
      LessEqReflexive(a[1..]);
    }
  }

  lemma {:induction false} LessEqTotal(a: string, b: string)
    ensures LessEq(a, b) || LessEq(b, a)
    decreases |a|
  {
    if a != [] && b != [] && a[0] == b[0] {
      LessEqTotal(a[1..], b[1..]);
    }
  }

  lemma {:induction false} LessEqAntisymmetric(a: string, b: string)
    requires LessEq(a, b) && LessEq(b, a)
    ensures a == b
    decreases |a|
  {
    if a != [] {
      LessEqAntisymmetric(a[1..], b[1..]);
      assert a == [a[0]] + a[1..] && b == [b[0]] + b[1..];
    }
  }

  lemma {:induction false} LessEqTransitive(a: string, b: string, c: string)
    requires LessEq(a, b) && LessEq(b, c)
    ensures LessEq(a, c)
    decreases |a|
  {
    if a != [] && a[0] == b[0] && b[0] == c[0] {
      LessEqTransitive(a[1..], b[1..], c[1..]);
    }
  }

  predicate Sorted(s: seq<string>) {
    forall i :: 0 < i < |s| ==> LessEq(s[i - 1], s[i])
  }

  /** Inserting one string into a sorted list. */
  function Insert(x: string, s: seq<string>): (r: seq<string>)
    requires Sorted(s)
    ensures Sorted(r)
    ensures multiset(r) == multiset(s) + multiset{x}
    ensures |r| == |s| + 1
    ensures r[0] == x || (s != [] && r[0] == s[0])
  {
    if s == [] || LessEq(x, s[0]) then [x] + s
    else
      LessEqTotal(x, s[0]);
      assert Sorted(s[1..]) by {
        forall i | 0 < i < |s| - 1 ensures LessEq(s[1..][i - 1], s[1..][i]) {
          assert s[1..][i - 1] == s[i] && s[1..][i] == s[i + 1];
        }
      }
      var t := Insert(x, s[1..]);
      assert s == [s[0]] + s[1..];
      [s[0]] + t
  }

  /** `list.sort()` on strings, as an insertion sort: the result is a
      sorted permutation of the input. */
  function Sort(s: seq<string>): (r: seq<string>)
    ensures Sorted(r)
    ensures multiset(r) == multiset(s)
    ensures |r| == |s|
  {
    if s == [] then []
    else
      assert s == [s[0]] + s[1..];
      Insert(s[0], Sort(s[1..]))
  }

  lemma SortedTail(s: seq<string>)
    requires Sorted(s) && s != []
    ensures Sorted(s[1..])
  {
    forall i | 0 < i < |s| - 1 ensures LessEq(s[1..][i - 1], s[1..][i]) {
      assert s[1..][i - 1] == s[i] && s[1..][i] == s[i + 1];
    }
  }

  /** Sorting a sorted list leaves it as it is. */
  lemma {:induction false} SortOfSorted(s: seq<string>)
    requires Sorted(s)
    ensures Sort(s) == s
  {
    if s != [] {
      SortedTail(s);
      SortOfSorted(s[1..]);
      assert s == [s[0]] + s[1..];
    }
  }

  /** In a sorted list the head is below every element. */
  lemma {:induction false} SortedLeast(s: seq<string>, j: nat)
    requires Sorted(s) && j < |s|
    ensures LessEq(s[0], s[j])
  {
    if j == 0 {
      LessEqReflexive(s[0]);
    } else {
      SortedLeast(s, j - 1);
      LessEqTransitive(s[0], s[j - 1], s[j]);
    }
  }

  /** Two sorted lists with the same elements are equal: the order on
      strings is total, so `Sort` gives exactly the list that Python's
      `list.sort()` gives. */
  lemma SortedHeadsEqual(a: seq<string>, b: seq<string>)
    requires Sorted(a) && Sorted(b) && multiset(a) == multiset(b) && a != [] && b != []
    ensures a[0] == b[0]
  {
    assert a[0] in multiset(b) && b[0] in multiset(a);
    var j :| 0 <= j < |b| && b[j] == a[0];
    var k :| 0 <= k < |a| && a[k] == b[0];
    SortedLeast(b, j);
    SortedLeast(a, k);
    LessEqAntisymmetric(a[0], b[0]);
  }

  lemma {:induction false} SortedPermutationUnique(a: seq<string>, b: seq<string>)
    requires Sorted(a) && Sorted(b) && multiset(a) == multiset(b)
    ensures a == b
  {
    assert |a| == |multiset(a)| == |multiset(b)| == |b|;
    if a != [] {
      SortedHeadsEqual(a, b);
      var ta, tb := a[1..], b[1..];
      assert multiset(a) == multiset([a[0]]) + multiset(ta) by { assert a == [a[0]] + ta; }
      assert multiset(b) == multiset([a[0]]) + multiset(tb) by { assert b == [b[0]] + tb; }
      assert multiset(ta) == multiset(tb) by {
        forall x ensures multiset(ta)[x] == multiset(tb)[x] {
          assert multiset(a)[x] == multiset([a[0]])[x] + multiset(ta)[x];
          assert multiset(b)[x] == multiset([a[0]])[x] + multiset(tb)[x];
        }
      }
      SortedTail(a);
      SortedTail(b);
      SortedPermutationUnique(a[1..], b[1..]);
    }
  }

  /** `Sort` agrees with every other sort of the same list. */
  lemma SortIsTheSort(s: seq<string>, r: seq<string>)
    requires Sorted(r) && multiset(r) == multiset(s)
    ensures Sort(s) == r
  {
    SortedPermutationUnique(Sort(s), r);
  }

  // ---------------------------------------------------------------------
  // `str.split(',')`, `', '.join(...)` and `str.strip()`
  // ---------------------------------------------------------------------

  /** `s.split(sep)` for a one-character separator: the pieces between the
      separators, always at least one. */
  function Split(s: string, sep: char): (r: seq<string>)
    ensures |r| >= 1
    ensures forall i :: 0 <= i < |r| ==> Lacks(r[i], sep)
  {
    if s == [] then [[]]
    else
      var t := Split(s[1..], sep);
      if s[0] == sep then [[]] + t else [[s[0]] + t[0]] + t[1..]
  }

  /** A character missing from the text is missing from every piece. */
  lemma {:induction false} SplitLacks(s: string, sep: char, c: char)
    requires Lacks(s, c)
    ensures forall i :: 0 <= i < |Split(s, sep)| ==> Lacks(Split(s, sep)[i], c)
  {
    if s != [] {
      SplitLacks(s[1..], sep, c);
    }
  }

  /** `sep.join(parts)`. */
  function Join(parts: seq<string>, sep: string): string {
    if parts == [] then []
    else if |parts| == 1 then parts[0]
    else parts[0] + sep + Join(parts[1..], sep)
  }

  /** Joining the pieces again gives back the text that was split. */
  lemma {:induction false} JoinSplit(s: string, sep: char)
    ensures Join(Split(s, sep), [sep]) == s
  {
    if s != [] {
      var t := Split(s[1..], sep);
      JoinSplit(s[1..], sep);
      if s[0] == sep {
        assert ([[]] + t)[1..] == t;
      } else if |t| > 1 {
        assert ([[s[0]] + t[0]] + t[1..])[1..] == t[1..];
        assert s == [s[0]] + s[1..];
      } else {
        assert s == [s[0]] + s[1..];
      }
    }
  }

  lemma {:induction false} SplitWithout(x: string, sep: char)
    requires Lacks(x, sep)
    ensures Split(x, sep) == [x]
  {
    if x != [] {
      SplitWithout(x[1..], sep);
      assert x == [x[0]] + x[1..];
    }
  }

  lemma {:induction false} SplitFirst(x: string, sep: char, rest: string)
    requires Lacks(x, sep)
    ensures Split(x + [sep] + rest, sep) == [x] + Split(rest, sep)
  {
    var s := x + [sep] + rest;
    if x == [] {
      assert s[1..] == rest;
    } else {
      assert s[1..] == x[1..] + [sep] + rest;
      SplitFirst(x[1..], sep, rest);
      assert x == [x[0]] + x[1..];
    }
  }

  /** Splitting a join of separator-free pieces gives the pieces back. */
  lemma {:induction false} SplitJoin(parts: seq<string>, sep: char)
    requires |parts| >= 1
    requires forall i :: 0 <= i < |parts| ==> Lacks(parts[i], sep)
    ensures Split(Join(parts, [sep]), sep) == parts
  {
    if |parts| == 1 {
      SplitWithout(parts[0], sep);
    } else {
      SplitJoin(parts[1..], sep);
      SplitFirst(parts[0], sep, Join(parts[1..], [sep]));
      assert parts == [parts[0]] + parts[1..];
    }
  }

  /** A character in neither the pieces nor the separator is not in
      their join. */
  lemma {:induction false} JoinLacks(parts: seq<string>, sep: string, c: char)
    requires Lacks(sep, c)
    requires forall i :: 0 <= i < |parts| ==> Lacks(parts[i], c)
    ensures Lacks(Join(parts, sep), c)
  {
    if |parts| > 1 {
      JoinLacks(parts[1..], sep, c);
      var j := Join(parts[1..], sep);
      assert forall k :: 0 <= k < |j| ==> j[k] != c;
    }
  }

  /** White space for `strip()` on a Python 2 byte string: tab, line
      feed, vertical tab, form feed, carriage return and space. */
  predicate IsByteSpace(c: char) {
    9 <= c as int <= 13 || c == ' '
  }

  function TrimLeft(s: string): (r: string)
    ensures |r| <= |s| && r == s[|s| - |r|..]
    ensures r == [] || !IsByteSpace(r[0])
    ensures forall k :: 0 <= k < |s| - |r| ==> IsByteSpace(s[k])
  {
    if s != [] && IsByteSpace(s[0]) then TrimLeft(s[1..]) else s
  }

  function TrimRight(s: string): (r: string)
    ensures |r| <= |s| && r == s[..|r|]
    ensures r == [] || !IsByteSpace(r[|r| - 1])
    ensures forall k :: |r| <= k < |s| ==> IsByteSpace(s[k])
  {
    if s != [] && IsByteSpace(s[|s| - 1]) then TrimRight(s[..|s| - 1]) else s
  }

  /** No white space at either end. */
  predicate Stripped(s: string) {
    s == [] || (!IsByteSpace(s[0]) && !IsByteSpace(s[|s| - 1]))
  }

  /** `s.strip()`: the middle of `s` that is left once the white space at
      both ends is removed. */
  function Strip(s: string): (r: string)
    ensures Stripped(r) && |r| <= |s|
  {
    TrimRight(TrimLeft(s))
  }

  /** What `strip` keeps is a slice of the text, and everything it drops
      is white space. */
  lemma StripKeepsMiddle(s: string)
    ensures exists i, j :: 0 <= i <= j <= |s| && Strip(s) == s[i..j] &&
                           (forall k :: 0 <= k < i ==> IsByteSpace(s[k])) &&
                           (forall k :: j <= k < |s| ==> IsByteSpace(s[k]))
  {
    var l := TrimLeft(s);
    var i := |s| - |l|;
    assert Strip(s) == s[i..i + |Strip(s)|];
  }

  lemma StripLacks(s: string, c: char)
    requires Lacks(s, c)
    ensures Lacks(Strip(s), c)
  {
    var l := TrimLeft(s);
    assert Lacks(l, c) by {
      forall k | 0 <= k < |l| ensures l[k] != c {
        assert l[k] == s[|s| - |l| + k];
      }
    }
    var r := TrimRight(l);
    assert Strip(s) == r;
    forall k | 0 <= k < |r| ensures r[k] != c {
      assert r[k] == l[k];
    }
  }

  /** Stripping a stripped text, or one preceded by a single space, gives
      it back. */
  lemma StripSpaceThen(f: string)
    requires Stripped(f)
    ensures Strip(f) == f
    ensures Strip(" " + f) == f
  {
    assert (" " + f)[1..] == f;
  }

  /** One white-space character on each side of a stripped, non-empty
      text is removed, whichever white space it is. */
  lemma StripPadded(a: char, f: string, b: char)
    requires IsByteSpace(a) && IsByteSpace(b) && f != [] && Stripped(f)
    ensures Strip([a] + f + [b]) == f
  {
    var s := [a] + f + [b];
    assert s[1..] == f + [b];
    assert TrimLeft(f + [b]) == f + [b] by {
      assert (f + [b])[0] == f[0];
    }
    assert (f + [b])[..|f|] == f;
    assert TrimRight(f) == f;
  }

  /** Only the six byte white-space characters are stripped: a column
      padded with a no-break space and an ideographic space, or led by
      the file separator `\x1c`, is kept whole. */
  lemma StripKeepsOtherSpace()
    ensures Strip("\U{A0}select\U{3000}") == "\U{A0}select\U{3000}"
    ensures Strip("\U{1C}select") == "\U{1C}select"
    ensures Strip(" \U{A0}select\U{3000}") == "\U{A0}select\U{3000}"
  {
    StripSpaceThen("\U{A0}select\U{3000}");
    StripSpaceThen("\U{1C}select");
  }

  function StripAll(xs: seq<string>): (r: seq<string>)
    ensures |r| == |xs|
    ensures forall i :: 0 <= i < |xs| ==> r[i] == Strip(xs[i])
  {
    seq(|xs|, i requires 0 <= i < |xs| => Strip(xs[i]))
  }

  // ---------------------------------------------------------------------
  // The match of `(.*?\()(.*)(\).*)$`
  // ---------------------------------------------------------------------

  /** The text that `.` and `$` can span: all of `s` when it has no line
      feed, `s` less its last character when that is its only line feed,
      and nothing otherwise. */
  function GrantLine(s: string): (r: Option<string>)
    ensures r.Some? ==> Lacks(r.value, '\n') && (s == r.value || s == r.value + "\n")
    ensures r.None? ==> exists k :: 0 <= k < |s| - 1 && s[k] == '\n'
  {
    var k := FirstIndex(s, '\n');
    if k == |s| then Some(s)
    else if k == |s| - 1 then Some(s[..k])
    else None
  }

  /** The three groups of the match: up to the first `(`, up to the last
      `)` and the rest of the line. */
  function MatchGrant(s: string): (r: Option<(string, string, string)>)
    ensures r.Some? ==>
      var (a, m, c) := r.value;
      GrantLine(s) == Some(a + m + c) &&
      |a| > 0 && a[|a| - 1] == '(' && (forall k :: 0 <= k < |a| - 1 ==> a[k] != '(') &&
      |c| > 0 && c[0] == ')' && (forall k :: 0 < k < |c| ==> c[k] != ')')
    ensures r.None? && GrantLine(s).Some? ==>
      var l := GrantLine(s).value;
      forall i, j :: 0 <= i < j < |l| && l[i] == '(' ==> l[j] != ')'
  {
    var line := GrantLine(s);
    if line.None? then None
    else
      var l := line.value;
      var p := FirstIndex(l, '(');
      var q := LastIndex(l, ')');
      if p < |l| && p < q then
        assert l[..p + 1] + l[p + 1..q] + l[q..] == l;
        Some((l[..p + 1], l[p + 1..q], l[q..]))
      else
        None
  }

  /** `_get_sorted_grant(grant)`. */
  function SortedGrant(g: string): (r: string)
    ensures Lacks(g, '(') ==> r == g
  {
    var mg := MatchGrant(g);
    if mg.None? then g
    else
      var a, m, c := mg.value.0, mg.value.1, mg.value.2;
      assert g[|a| - 1] == (a + m + c)[|a| - 1] == '(';
      a + Join(Sort(StripAll(Split(m, ','))), ", ") + c
  }

  /** A grant with a column list keeps everything outside it, except a
      final line feed, and its columns come out stripped, sorted and joined
      with `", "`. */
  lemma SortedGrantSortsColumns(g: string)
    requires MatchGrant(g).Some?
    ensures var (a, m, c) := MatchGrant(g).value;
            exists fs :: SortedGrant(g) == a + Join(fs, ", ") + c &&
                         Sorted(fs) && multiset(fs) == multiset(StripAll(Split(m, ',')))
  {
    var (a, m, c) := MatchGrant(g).value;
    var fs := Sort(StripAll(Split(m, ',')));
    assert SortedGrant(g) == a + Join(fs, ", ") + c;
  }

  // ---------------------------------------------------------------------
  // Idempotence
  // ---------------------------------------------------------------------

  /** `", ".join(fs)` is `",".join` of the names with a space before all
      but the first. */
  function Spaced(fs: seq<string>): (r: seq<string>)
    requires |fs| >= 1
    ensures |r| == |fs| && r[0] == fs[0]
    ensures forall i :: 0 < i < |fs| ==> r[i] == " " + fs[i]
  {
    [fs[0]] + seq(|fs| - 1, i requires 0 <= i < |fs| - 1 => " " + fs[i + 1])
  }

  lemma {:induction false} JoinSpaced(fs: seq<string>)
    requires |fs| >= 1
    ensures Join(fs, ", ") == Join(Spaced(fs), ",")
  {
    if |fs| > 1 {
      var t := Spaced(fs[1..]);
      var u := Spaced(fs);
      // `u` is `t` with a space put before its head
      assert u[1..] == [" " + t[0]] + t[1..];
      calc {
        Join(fs, ", ");
        fs[0] + ", " + Join(fs[1..], ", ");
        == { JoinSpaced(fs[1..]); }
        fs[0] + ", " + Join(t, ",");
        == { assert ", " == "," + " "; }
        fs[0] + "," + (" " + Join(t, ","));
        == { JoinHead(t, " ", ","); }
        u[0] + "," + Join(u[1..], ",");
        Join(u, ",");
      }
    }
  }

  /** Putting text before the first piece puts it before the join. */
  lemma JoinHead(t: seq<string>, x: string, sep: string)
    requires |t| >= 1
    ensures Join([x + t[0]] + t[1..], sep) == x + Join(t, sep)
  {
    var v := [x + t[0]] + t[1..];
    if |t| > 1 {
      assert v[1..] == t[1..];
    }
  }

  lemma SpacedLacks(fs: seq<string>, i: nat)
    requires i < |fs| && Lacks(fs[i], ',')
    ensures Lacks(Spaced(fs)[i], ',')
  {
    var x := Spaced(fs)[i];
    if i > 0 {
      assert x == " " + fs[i];
      assert forall k :: 0 < k < |x| ==> x[k] == fs[i][k - 1];
    }
  }

  /** The columns written out with `", "` split back into the columns
      with a space before all but the first. */
  lemma SplitSpaced(fs: seq<string>)
    requires |fs| >= 1
    requires forall i :: 0 <= i < |fs| ==> Lacks(fs[i], ',')
    ensures Split(Join(fs, ", "), ',') == Spaced(fs)
  {
    JoinSpaced(fs);
    var sp := Spaced(fs);
    forall i | 0 <= i < |sp| ensures Lacks(sp[i], ',') {
      SpacedLacks(fs, i);
    }
    SplitJoin(sp, ',');
  }

  lemma StripSpaced(fs: seq<string>)
    requires |fs| >= 1
    requires forall i :: 0 <= i < |fs| ==> Stripped(fs[i])
    ensures StripAll(Spaced(fs)) == fs
  {
    var sp := Spaced(fs);
    var st := StripAll(sp);
    forall i | 0 <= i < |fs| ensures st[i] == fs[i] {
      StripSpaceThen(fs[i]);
      if i > 0 {
        assert sp[i] == " " + fs[i];
      }
    }
  }

  /** The list that the first normalisation produces comes through a
      second one unchanged. */
  lemma ColumnsStable(fs: seq<string>)
    requires |fs| >= 1 && Sorted(fs)
    requires forall i :: 0 <= i < |fs| ==> Column(fs[i])
    ensures Sort(StripAll(Split(Join(fs, ", "), ','))) == fs
  {
    SplitSpaced(fs);
    StripSpaced(fs);
    SortOfSorted(fs);
  }

  /** What every column name of a normalised grant is: stripped, with no
      comma and no line feed. */
  predicate Column(f: string) {
    Stripped(f) && Lacks(f, ',') && Lacks(f, '\n')
  }

  lemma PieceClean(p: string)
    requires Lacks(p, ',') && Lacks(p, '\n')
    ensures Column(Strip(p))
  {
    StripLacks(p, ',');
    StripLacks(p, '\n');
  }

  lemma PermutedColumn(ss: seq<string>, fs: seq<string>, i: nat)
    requires multiset(fs) == multiset(ss) && i < |fs|
    requires forall k :: 0 <= k < |ss| ==> Column(ss[k])
    ensures Column(fs[i])
  {
    assert fs[i] in multiset(fs);
    assert fs[i] in ss;
  }

  /** Every column name the normalisation produces is stripped and holds
      no comma, and no line feed when the list had none. */
  lemma ColumnsClean(m: string, fs: seq<string>)
    requires Lacks(m, '\n') && fs == Sort(StripAll(Split(m, ',')))
    ensures forall i :: 0 <= i < |fs| ==> Column(fs[i])
  {
    var ps := Split(m, ',');
    var ss := StripAll(ps);
    SplitLacks(m, ',', '\n');
    forall k | 0 <= k < |ss| ensures Column(ss[k]) {
      PieceClean(ps[k]);
    }
    forall i | 0 <= i < |fs| ensures Column(fs[i]) {
      PermutedColumn(ss, fs, i);
    }
  }

  /** The match of a rebuilt grant finds the same three parts. */
  lemma MatchRebuilt(a: string, j: string, c: string)
    requires |a| > 0 && a[|a| - 1] == '(' && forall k :: 0 <= k < |a| - 1 ==> a[k] != '('
    requires |c| > 0 && c[0] == ')' && forall k :: 0 < k < |c| ==> c[k] != ')'
    requires Lacks(a + j + c, '\n')
    ensures MatchGrant(a + j + c) == Some((a, j, c))
  {
    var l := a + j + c;
    var e := |a| + |j|;
    assert GrantLine(l) == Some(l);
    assert l[|a| - 1] == '(' && forall k :: 0 <= k < |a| - 1 ==> l[k] != '(';
    assert l[e] == ')' && forall k :: e < k < |l| ==> l[k] != ')';
    var p, q := FirstIndex(l, '('), LastIndex(l, ')');
    assert p == |a| - 1;
    assert q == e;
    assert l[..p + 1] == a && l[p + 1..q] == j && l[q..] == c;
  }

  lemma LacksConcat(a: string, m: string, c: string, ch: char)
    ensures Lacks(a + m + c, ch) <==> Lacks(a, ch) && Lacks(m, ch) && Lacks(c, ch)
  {
    var s := a + m + c;
    assert forall k :: 0 <= k < |a| ==> a[k] == s[k];
    assert forall k :: 0 <= k < |m| ==> m[k] == s[|a| + k];
    assert forall k :: 0 <= k < |c| ==> c[k] == s[|a| + |m| + k];
  }

  /** Normalising a normalised grant changes nothing. */
  lemma SortedGrantIdempotent(g: string)
    ensures SortedGrant(SortedGrant(g)) == SortedGrant(g)
  {
    var r := MatchGrant(g);
    if r.Some? {
      var a, m, c := r.value.0, r.value.1, r.value.2;
      var fs := Sort(StripAll(Split(m, ',')));
      var j := Join(fs, ", ");
      assert SortedGrant(g) == a + j + c;
      LacksConcat(a, m, c, '\n');
      ColumnsClean(m, fs);
      JoinLacks(fs, ", ", '\n');
      LacksConcat(a, j, c, '\n');
      MatchRebuilt(a, j, c);
      assert SortedGrant(a + j + c) == a + Join(Sort(StripAll(Split(j, ','))), ", ") + c;
      ColumnsStable(fs);
    }
  }
}
