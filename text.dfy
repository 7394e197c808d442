/** Character classes, decimal numerals, ASCII case mapping, substring
    search and replacement, and POSIX path joining: the parts of Python's
    `str`, `int`, `%d` and `os.path` that the saliweb code relies on. Only the
    ASCII behaviour of Python's Unicode-aware operations is modelled. */
module Text {

  // ---------------------------------------------------------------------
  // Character classes
  // ---------------------------------------------------------------------

  predicate IsDigit(c: char) { '0' <= c <= '9' }
  predicate IsAsciiLower(c: char) { 'a' <= c <= 'z' }
  predicate IsAsciiUpper(c: char) { 'A' <= c <= 'Z' }
  predicate IsAlnum(c: char) { IsAsciiLower(c) || IsAsciiUpper(c) || IsDigit(c) }

  /** The characters Python 3's `str.isspace()` accepts, which are those
      `str.strip()` removes and `\s` matches in a `str` pattern: tab, line
      feed, vertical tab, form feed, carriage return, the separators 0x1C
      to 0x1F, space, next line (0x85), no-break space (0xA0), the Ogham
      space mark, the spaces 0x2000 to 0x200A, the line and paragraph
      separators, the narrow no-break space, the medium mathematical space
      and the ideographic space. */
  predicate IsSpace(c: char) {
    var n := c as int;
    9 <= n <= 13 || 28 <= n <= 32 || n == 0x85 || n == 0xA0 || n == 0x1680 ||
    0x2000 <= n <= 0x200A || n == 0x2028 || n == 0x2029 || n == 0x202F ||
    n == 0x205F || n == 0x3000
  }

  predicate AllDigits(s: string) { forall i :: 0 <= i < |s| ==> IsDigit(s[i]) }

  // ---------------------------------------------------------------------
  // Decimal numerals: `'%d' % n` and `int(s)`
  // ---------------------------------------------------------------------

  function DigitChar(d: nat): (c: char)
    requires d < 10
    ensures IsDigit(c)
  {
    ('0' as int + d) as char
  }

  function DigitValue(c: char): (d: nat)
    requires IsDigit(c)
    ensures d < 10 && DigitChar(d) == c
  {
    c as int - '0' as int
  }

  /** The decimal text of `n`, as Python's `'%d' % n` writes it. */
  function Show(n: nat): (r: string)
    ensures |r| >= 1 && AllDigits(r)
    ensures n < 10 <==> |r| == 1
  {
    if n < 10 then [DigitChar(n)] else Show(n / 10) + [DigitChar(n % 10)]
  }

  /** Python's `%d` applied to an integer that may be negative. */
  function ShowInt(i: int): string {
    if i < 0 then "-" + Show(-i) else Show(i)
  }

  /** The value of a digit string, as Python's `int(s)` reads it. */
  function ParseDigits(s: string): nat
    requires AllDigits(s)
  {
    if s == [] then 0 else 10 * ParseDigits(s[..|s| - 1]) + DigitValue(s[|s| - 1])
  }

  /** Reading back what `Show` writes gives the original number. */
  lemma {:induction false} ParseShow(n: nat)
    ensures ParseDigits(Show(n)) == n
  {
    if n >= 10 {
      var s := Show(n);
      assert s[..|s| - 1] == Show(n / 10);
      ParseShow(n / 10);
    }
  }

  /** Distinct numbers have distinct decimal texts. */
  lemma ShowInjective(a: nat, b: nat)
    ensures Show(a) == Show(b) ==> a == b
  {
    ParseShow(a);
    ParseShow(b);
  }

  // ---------------------------------------------------------------------
  // ASCII case mapping: `str.lower()` and `str.upper()`
  // ---------------------------------------------------------------------

  function LowerChar(c: char): char {
    if IsAsciiUpper(c) then (c as int + 32) as char else c
  }

  function UpperChar(c: char): char {
    if IsAsciiLower(c) then (c as int - 32) as char else c
  }

  function Lower(s: string): string {
    seq(|s|, i requires 0 <= i < |s| => LowerChar(s[i]))
  }

  function Upper(s: string): string {
    seq(|s|, i requires 0 <= i < |s| => UpperChar(s[i]))
  }

  /** `s.lower() != s` holds exactly when `s` has an upper-case letter. */
  lemma LowerChangesIffUpper(s: string)
    ensures Lower(s) != s <==> exists i :: 0 <= i < |s| && IsAsciiUpper(s[i])
  {
    if Lower(s) != s {
      var i :| 0 <= i < |s| && Lower(s)[i] != s[i];
      assert IsAsciiUpper(s[i]);
    } else {
      forall i | 0 <= i < |s| ensures !IsAsciiUpper(s[i]) {
        assert Lower(s)[i] == s[i];
      }
    }
  }

  // ---------------------------------------------------------------------
  // Substrings: `sub in s` and `s.replace(pat, rep)`
  // ---------------------------------------------------------------------

  /** Python's `sub in s` for strings. */
  predicate Contains(s: string, sub: string)
    decreases |s|
  {
    sub <= s || (|s| > 0 && Contains(s[1..], sub))
  }

  /** A text shorter than the pattern cannot hold it. */
  lemma {:induction false} ShortLacks(s: string, sub: string)
    requires |s| < |sub|
    ensures !Contains(s, sub)
  {
    if |s| > 0 {
      ShortLacks(s[1..], sub);
    }
  }

  /** Python's `s.replace(pat, rep)`: every non-overlapping occurrence of
      `pat`, scanning left to right, is replaced by `rep`. */
  function ReplaceAll(s: string, pat: string, rep: string): string
    requires |pat| > 0
    decreases |s|
  {
    if |s| < |pat| then s
    else if s[..|pat|] == pat then rep + ReplaceAll(s[|pat|..], pat, rep)
    else [s[0]] + ReplaceAll(s[1..], pat, rep)
  }

  /** A string without the pattern comes through a replacement unchanged. */
  lemma {:induction false} ReplaceAbsent(s: string, pat: string, rep: string)
    requires |pat| > 0 && !Contains(s, pat)
    ensures ReplaceAll(s, pat, rep) == s
  {
    if |s| >= |pat| {
      assert s[..|pat|] != pat;
      ReplaceAbsent(s[1..], pat, rep);
    }
  }

  /** Replacing a pattern by itself changes nothing. */
  lemma {:induction false} ReplaceBySelf(s: string, pat: string)
    requires |pat| > 0
    ensures ReplaceAll(s, pat, pat) == s
    decreases |s|
  {
    if |s| >= |pat| {
      if s[..|pat|] == pat {
        ReplaceBySelf(s[|pat|..], pat);
        assert s == pat + s[|pat|..];
      } else {
        ReplaceBySelf(s[1..], pat);
        assert s == [s[0]] + s[1..];
      }
    }
  }

  /** Replacing one occurrence that follows a pattern-free text. */
  lemma {:induction false} ReplaceAfter(a: string, pat: string, rep: string, b: string)
    requires |pat| > 0 && !Contains(a + pat[..|pat| - 1], pat)
    ensures ReplaceAll(a + pat + b, pat, rep) == a + rep + ReplaceAll(b, pat, rep)
    decreases |a|
  {
    if a == [] {
      ReplaceAtStart(pat, rep, b);
      assert a + pat + b == pat + b;
    } else {
      var s := a + pat + b;
      var a' := a[1..];
      var t := a + pat[..|pat| - 1];
      ContainsStep(t, pat);
      assert t[1..] == a' + pat[..|pat| - 1];
      AfterFirstChar(a, pat, b);
      calc {
        ReplaceAll(s, pat, rep);
        == { ReplaceSkip(s, pat, rep); }
        [a[0]] + ReplaceAll(a' + pat + b, pat, rep);
        == { ReplaceAfter(a', pat, rep, b); }
        [a[0]] + (a' + rep + ReplaceAll(b, pat, rep));
        == { assert a == [a[0]] + a'; }
        a + rep + ReplaceAll(b, pat, rep);
      }
    }
  }

  /** A text that starts with the pattern has it replaced there. */
  lemma ReplaceAtStart(pat: string, rep: string, b: string)
    requires |pat| > 0
    ensures ReplaceAll(pat + b, pat, rep) == rep + ReplaceAll(b, pat, rep)
  {
    assert (pat + b)[..|pat|] == pat;
    assert (pat + b)[|pat|..] == b;
  }

  /** A text without the pattern neither starts with it nor holds it after
      its first character. */
  lemma ContainsStep(t: string, sub: string)
    requires t != [] && !Contains(t, sub)
    ensures !(sub <= t) && !Contains(t[1..], sub)
  {
  }

  /** A text not starting with the pattern, followed by the pattern, does
      not start with it either. */
  lemma AfterFirstChar(a: string, pat: string, b: string)
    requires |pat| > 0 && a != [] && !(pat <= a + pat[..|pat| - 1])
    ensures var s := a + pat + b;
            |s| >= |pat| && s[..|pat|] != pat && s[1..] == a[1..] + pat + b
  {
    var s := a + pat + b;
    var t := a + pat[..|pat| - 1];
    assert s[1..] == a[1..] + pat + b;
    assert s[..|pat|] == t[..|pat|] by {
      forall i | 0 <= i < |pat| ensures s[i] == t[i] {
        if i >= |a| {
          assert s[i] == pat[i - |a|] && t[i] == pat[..|pat| - 1][i - |a|];
        }
      }
    }
  }

  /** A text that does not start with the pattern keeps its first
      character. */
  lemma ReplaceSkip(s: string, pat: string, rep: string)
    requires |pat| > 0 && |s| >= |pat| && s[..|pat|] != pat
    ensures ReplaceAll(s, pat, rep) == [s[0]] + ReplaceAll(s[1..], pat, rep)
  {
  }

  /** The text before the first `.` (all of `s` when it has none). */
  function BeforeDot(s: string): (r: string)
    ensures r <= s && '.' !in r
    ensures |r| < |s| ==> s[|r|] == '.'
  {
    if s == [] || s[0] == '.' then [] else [s[0]] + BeforeDot(s[1..])
  }

  /** A dot-free text followed by a dot is what comes before the first
      dot. */
  lemma {:induction false} BeforeDotOf(a: string, b: string)
    requires '.' !in a
    ensures BeforeDot(a + "." + b) == a
  {
    var s := a + "." + b;
    if a != [] {
      assert s[0] == a[0] && s[1..] == a[1..] + "." + b;
      BeforeDotOf(a[1..], b);
    }
  }

  /** `c` occurs nowhere in `s`. */
  predicate Lacks(s: string, c: char) {
    forall k :: 0 <= k < |s| ==> s[k] != c
  }

  /** The position of the first `c` in `s`, or `|s|` when there is none. */
  function FirstIndex(s: string, c: char): (k: nat)
    ensures k <= |s|
    ensures forall j :: 0 <= j < k ==> s[j] != c
    ensures k < |s| ==> s[k] == c
  {
    if s == [] || s[0] == c then 0 else 1 + FirstIndex(s[1..], c)
  }

  /** The position of the last `c` in `s`, or -1 when there is none. */
  function LastIndex(s: string, c: char): (k: int)
    ensures -1 <= k < |s|
    ensures forall j :: k < j < |s| ==> s[j] != c
    ensures 0 <= k ==> s[k] == c
  {
    if s == [] then -1
    else if s[|s| - 1] == c then |s| - 1
    else LastIndex(s[..|s| - 1], c)
  }

  /** Replacing one character by another keeps the length and changes
      exactly the positions holding that character. */
  lemma {:induction false} ReplaceOneChar(s: string, a: char, b: char)
    ensures |ReplaceAll(s, [a], [b])| == |s|
    ensures forall i :: 0 <= i < |s| ==> ReplaceAll(s, [a], [b])[i] == if s[i] == a then b else s[i]
  {
    if s != [] {
      ReplaceOneChar(s[1..], a, b);
      assert s[..1] == [s[0]];
    }
  }

  // ---------------------------------------------------------------------
  // POSIX paths: `os.path.join` and `os.path.basename`
  // ---------------------------------------------------------------------

  predicate IsAbsolute(p: string) { |p| > 0 && p[0] == '/' }

  /** `os.path.join(a, b)` on POSIX: an absolute `b` replaces `a`; otherwise
      `b` is appended, with a `/` unless `a` is empty or already ends in one. */
  function PathJoin(a: string, b: string): string {
    if IsAbsolute(b) then b
    else if a == [] || a[|a| - 1] == '/' then a + b
    else a + "/" + b
  }

  /** An absolute second part replaces the first; a relative one is put
      after it. Either way the result ends with the second part. */
  lemma PathJoinShape(a: string, b: string)
    ensures IsAbsolute(b) ==> PathJoin(a, b) == b
    ensures !IsAbsolute(b) ==> a <= PathJoin(a, b)
    ensures |b| <= |PathJoin(a, b)| && PathJoin(a, b)[|PathJoin(a, b)| - |b|..] == b
  {
  }

  /** `os.path.basename(p)`: the text after the last `/`. */
  function Basename(p: string): string {
    p[LastIndex(p, '/') + 1..]
  }

  /** The base name is the end of the path after its last `/`: it holds no
      `/`, and is either the whole path or preceded by a `/`. */
  lemma BasenameShape(p: string)
    ensures var r := Basename(p);
            |r| <= |p| && p[|p| - |r|..] == r &&
            Lacks(r, '/') &&
            (|r| < |p| ==> p[|p| - |r| - 1] == '/')
  {
    var k := LastIndex(p, '/');
    var r := p[k + 1..];
    assert Basename(p) == r;
    forall i | 0 <= i < |r| ensures r[i] != '/' {
      assert k < k + 1 + i < |p|;
    }
  }

  // ---------------------------------------------------------------------
  // Random alphanumeric text
  // ---------------------------------------------------------------------

  /** The k-th character of `ascii_lowercase + ascii_uppercase + digits`
      (equal to `ascii_letters + digits`), for k taken modulo 62. */
  function AlnumChar(k: nat): (c: char)
    ensures IsAlnum(c)
  {
    var j := k % 62;
    if j < 26 then ('a' as int + j) as char
    else if j < 52 then ('A' as int + (j - 26)) as char
    else ('0' as int + (j - 52)) as char
  }

  /** `''.join(random.choice(valid) for _ in range(length))`, with the random
      choices supplied by `pick` (the i-th draw is `pick(i)`). */
  function RandomAlnum(length: nat, pick: nat -> nat): (r: string)
    ensures |r| == length
    ensures forall i :: 0 <= i < |r| ==> IsAlnum(r[i])
  {
    var r := seq(length, i requires 0 <= i < length => AlnumChar(pick(i)));
    assert forall i :: 0 <= i < length ==> r[i] == AlnumChar(pick(i));
    r
  }

  /** Where an alphanumeric character sits in `ascii_letters + digits`. */
  function AlnumIndex(c: char): (k: nat)
    ensures k < 62
    ensures IsAlnum(c) ==> AlnumChar(k) == c
  {
    if IsAsciiLower(c) then c as int - 'a' as int
    else if IsAsciiUpper(c) then c as int - 'A' as int + 26
    else if IsDigit(c) then c as int - '0' as int + 52
    else 0
  }

  /** Every alphanumeric string of the requested length is one that the
      random choices can produce. */
  lemma RandomAlnumOnto(s: string)
    requires forall i :: 0 <= i < |s| ==> IsAlnum(s[i])
    ensures exists pick: nat -> nat :: RandomAlnum(|s|, pick) == s
  {
    var pick: nat -> nat := (k: nat) => if k < |s| then AlnumIndex(s[k]) else 0;
    assert RandomAlnum(|s|, pick) == s;
  }
}
