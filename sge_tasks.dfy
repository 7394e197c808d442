/** The SGE task-range option parser (`_SGETasks` in
    python/saliweb/backend/cluster.py): reads `-t first[-last[:step]]` out of
    an option string and combines a bulk job's ids into one run id. */
module SgeTasks {
  import opened Base
  import opened Text

  /** A parsed option. `NoRange` is the object built when the options have
      no `-t `: only `first` is set (to 0), `last` and `step` do not exist. */
  datatype Tasks = NoRange | Range(first: nat, last: nat, step: nat)

  function First(t: Tasks): nat {
    if t.NoRange? then 0 else t.first
  }

  /** `__bool__`: an object is true exactly when `first` is not 0. */
  predicate IsTrue(t: Tasks) {
    First(t) != 0
  }

  // ---------------------------------------------------------------------
  // The regular expression `-t\s+(\d+)(?:\-(\d+)(?::(\d+))?)?`
  // ---------------------------------------------------------------------

  /** The length of the run of digits starting at `i`. */
  function DigitRun(s: string, i: nat): (n: nat)
    requires i <= |s|
    ensures i + n <= |s| && AllDigits(s[i..i + n])
    ensures i + n < |s| ==> !IsDigit(s[i + n])
    decreases |s| - i
  {
    if i < |s| && IsDigit(s[i]) then
      var n := DigitRun(s, i + 1);
      assert s[i..i + 1 + n] == [s[i]] + s[i + 1..i + 1 + n];
      1 + n
    else 0
  }

  /** The length of the run of whitespace starting at `i`. */
  function SpaceRun(s: string, i: nat): (n: nat)
    requires i <= |s|
    ensures i + n <= |s|
    ensures forall k :: i <= k < i + n ==> IsSpace(s[k])
    ensures i + n < |s| ==> !IsSpace(s[i + n])
    decreases |s| - i
  {
    if i < |s| && IsSpace(s[i]) then 1 + SpaceRun(s, i + 1) else 0
  }

  /** The three groups of a match, already converted by `int()`. */
  datatype Groups = Groups(g1: nat, g2: Option<nat>, g3: Option<nat>)

  /** An optional `<sep>(\d+)` part tried at position `e`: the number read
      and the position just after it. */
  function NumberAfter(s: string, e: nat, sep: char): (r: Option<(nat, nat)>)
    requires e <= |s|
    ensures r.Some? ==> e + 1 < r.value.1 <= |s| && s[e] == sep
    ensures r.Some? ==> r.value.1 == |s| || !IsDigit(s[r.value.1])
  {
    var n := if e < |s| && s[e] == sep then DigitRun(s, e + 1) else 0;
    if n > 0 then Some((ParseDigits(s[e + 1..e + 1 + n]), e + 1 + n)) else None
  }

  /** The regular expression anchored at position `p` (greedy groups, as
      Python's engine takes them). */
  function MatchAt(s: string, p: nat): Option<Groups>
    requires p <= |s|
  {
    if !("-t" <= s[p..]) then None
    else
      var w := SpaceRun(s, p + 2);
      var d := p + 2 + w;
      var n1 := DigitRun(s, d);
      if w == 0 || n1 == 0 then None
      else Some(Groups(ParseDigits(s[d..d + n1]), Group2(s, d + n1), Group3(s, d + n1)))
  }

  /** The `-(\d+)` group after the first number ending at `e1`. */
  function Group2(s: string, e1: nat): Option<nat>
    requires e1 <= |s|
  {
    var m := NumberAfter(s, e1, '-');
    if m.None? then None else Some(m.value.0)
  }

  /** The `:(\d+)` group, tried only after a `-(\d+)` group. */
  function Group3(s: string, e1: nat): Option<nat>
    requires e1 <= |s|
  {
    var m := NumberAfter(s, e1, '-');
    if m.None? then None
    else
      var m3 := NumberAfter(s, m.value.1, ':');
      if m3.None? then None else Some(m3.value.0)
  }

  /** `re.search`: the match at the leftmost position where there is one. */
  function Search(s: string, p: nat): Option<Groups>
    requires p <= |s|
    decreases |s| - p
  {
    match MatchAt(s, p)
    case Some(g) => Some(g)
    case None => if p == |s| then None else Search(s, p + 1)
  }

  /** `_SGETasks(opts)`: no `-t ` gives `NoRange`; a `-t ` that the regular
      expression does not match raises `ValueError`; otherwise the groups
      give first, last (default first) and step (default 1). */
  function Parse(opts: string): (r: Result<Tasks, string>)
    ensures !Contains(opts, "-t ") ==> r == Ok(NoRange)
    ensures r.Err? ==> Contains(opts, "-t ") && r.error == "Invalid -t SGE option: '" + opts + "'"
  {
    if !Contains(opts, "-t ") then Ok(NoRange)
    else
      match Search(opts, 0)
      case None => Err("Invalid -t SGE option: '" + opts + "'")
      case Some(g) =>
        var last := if g.g2.Some? then g.g2.value else g.g1;
        var step := if g.g3.Some? then g.g3.value else 1;
        Ok(Range(g.g1, last, step))
  }

  // ---------------------------------------------------------------------
  // Facts about the matcher
  // ---------------------------------------------------------------------

  lemma {:induction false} ContainsAt(s: string, sub: string, k: nat)
    requires k + |sub| <= |s| && s[k..k + |sub|] == sub
    ensures Contains(s, sub)
  {
    if k > 0 {
      assert s[1..][k - 1..k - 1 + |sub|] == sub;
      ContainsAt(s[1..], sub, k - 1);
    } else {
      assert sub <= s;
    }
  }

  /** Where no digit follows `p`, the expression matches nowhere from `p`
      on: each match needs the digits of its first group. */
  lemma {:induction false} NoDigitNoSearch(s: string, p: nat)
    requires p <= |s| && forall k :: p <= k < |s| ==> !IsDigit(s[k])
    ensures Search(s, p) == None
    decreases |s| - p
  {
    if "-t" <= s[p..] {
      var d := p + 2 + SpaceRun(s, p + 2);
      assert DigitRun(s, d) == 0;
    }
    assert MatchAt(s, p) == None;
    if p < |s| {
      NoDigitNoSearch(s, p + 1);
    }
  }

  lemma {:induction false} DigitRunOf(s: string, i: nat, n: nat)
    requires i + n <= |s| && AllDigits(s[i..i + n])
    requires i + n < |s| ==> !IsDigit(s[i + n])
    ensures DigitRun(s, i) == n
    decreases n
  {
    if n > 0 {
      assert IsDigit(s[i..i + n][0]);
      assert s[i + 1..i + n] == s[i..i + n][1..];
      DigitRunOf(s, i + 1, n - 1);
    }
  }

  /** A non-empty run of digits `ds`. */
  predicate Numeral(ds: string) { ds != [] && AllDigits(ds) }

  /** Reading a numeral `ds` placed at `i` in `s` and followed by a
      non-digit (or the end). */
  lemma {:induction false} ReadNumeral(s: string, i: nat, ds: string)
    requires Numeral(ds) && i + |ds| <= |s| && s[i..i + |ds|] == ds
    requires i + |ds| < |s| ==> !IsDigit(s[i + |ds|])
    ensures DigitRun(s, i) == |ds|
    ensures ParseDigits(s[i..i + DigitRun(s, i)]) == ParseDigits(ds)
  {
    DigitRunOf(s, i, |ds|);
  }

  /** Reading `<sep>ds` placed at `e` in `s` and followed by a non-digit
      (or the end). */
  lemma {:induction false} ReadAfter(s: string, e: nat, sep: char, ds: string)
    requires Numeral(ds) && e + 1 + |ds| <= |s| && s[e] == sep
    requires s[e + 1..e + 1 + |ds|] == ds
    requires e + 1 + |ds| < |s| ==> !IsDigit(s[e + 1 + |ds|])
    ensures NumberAfter(s, e, sep) == Some((ParseDigits(ds), e + 1 + |ds|))
  {
    ReadNumeral(s, e + 1, ds);
    var n := DigitRun(s, e + 1);
    assert n == |ds| > 0;
    assert ParseDigits(s[e + 1..e + 1 + n]) == ParseDigits(ds);
  }

  /** The matcher at the start of a text `-t ds...` reads `ds` as its first
      group, when `ds` is followed by a non-digit or the end. */
  lemma {:induction false} MatchAtHead(s: string, ds: string)
    requires Numeral(ds) && 3 + |ds| <= |s| && s[..3] == "-t "
    requires s[3..3 + |ds|] == ds
    requires 3 + |ds| < |s| ==> !IsDigit(s[3 + |ds|])
    ensures Search(s, 0) == Some(Groups(ParseDigits(ds), Group2(s, 3 + |ds|), Group3(s, 3 + |ds|)))
    ensures Contains(s, "-t ")
  {
    assert s[0] == '-' && s[1] == 't' && s[2] == ' ';
    assert "-t" <= s[0..];
    assert IsDigit(ds[0]);
    assert SpaceRun(s, 3) == 0;
    assert SpaceRun(s, 2) == 1;
    ReadNumeral(s, 3, ds);
    ContainsAt(s, "-t ", 0);
  }

  /** `-t a` for a numeral `a`: a single task. */
  lemma {:induction false} ParseOne(a: string)
    requires Numeral(a)
    ensures Parse("-t " + a) == Ok(Range(ParseDigits(a), ParseDigits(a), 1))
  {
    var s := "-t " + a;
    assert s[3..3 + |a|] == a;
    MatchAtHead(s, a);
  }

  /** `-t a-b` for numerals `a` and `b`: a range with step 1. */
  lemma {:induction false} ParseTwo(a: string, b: string)
    requires Numeral(a) && Numeral(b)
    ensures Parse("-t " + a + "-" + b) == Ok(Range(ParseDigits(a), ParseDigits(b), 1))
  {
    var s := "-t " + a + "-" + b;
    var e1 := 3 + |a|;
    assert s[3..e1] == a;
    assert s[e1] == '-';
    MatchAtHead(s, a);
    assert s[e1 + 1..] == b;
    ReadAfter(s, e1, '-', b);
    assert NumberAfter(s, |s|, ':') == None;
    assert Group2(s, e1) == Some(ParseDigits(b));
    assert Group3(s, e1) == None;
  }

  /** The text `a-b:c`. */
  function RangeOf(a: string, b: string, c: string): string {
    a + "-" + b + ":" + c
  }

  /** `-b:c` after any prefix, up to the end, gives the second and third
      groups. */
  lemma {:induction false} ReadRangeTail(pre: string, b: string, c: string)
    requires Numeral(b) && Numeral(c)
    ensures var s := pre + "-" + b + ":" + c;
            Group2(s, |pre|) == Some(ParseDigits(b)) && Group3(s, |pre|) == Some(ParseDigits(c))
  {
    var s := pre + "-" + b + ":" + c;
    var e1 := |pre|;
    var e2 := e1 + 1 + |b|;
    assert s[e1] == '-';
    assert s[e1 + 1..e2] == b;
    assert s[e2] == ':';
    ReadAfter(s, e1, '-', b);
    assert s[e2 + 1..e2 + 1 + |c|] == c;
    ReadAfter(s, e2, ':', c);
  }

  /** `-t a-b:c` for numerals `a`, `b` and `c`: a range with a step. */
  lemma {:induction false} ParseThree(a: string, b: string, c: string)
    requires Numeral(a) && Numeral(b) && Numeral(c)
    ensures Parse("-t " + RangeOf(a, b, c)) ==
            Ok(Range(ParseDigits(a), ParseDigits(b), ParseDigits(c)))
  {
    var s := "-t " + RangeOf(a, b, c);
    var pre := "-t " + a;
    assert s == pre + "-" + b + ":" + c;
    assert s[..3] == "-t ";
    assert s[3..3 + |a|] == a;
    assert s[3 + |a|] == '-';
    MatchAtHead(s, a);
    ReadRangeTail(pre, b, c);
  }

  /** The text `first-last:step` that `get_run_id` writes after the dot. */
  function RangeText(first: nat, last: nat, step: nat): string {
    RangeOf(Show(first), Show(last), Show(step))
  }

  /** `-t N` gives first = last = N and step 1. */
  lemma ParseSingle(n: nat)
    ensures Parse("-t " + Show(n)) == Ok(Range(n, n, 1))
  {
    ParseOne(Show(n));
    ParseShow(n);
  }

  /** `-t A-B` gives first A, last B and step 1. */
  lemma ParsePair(a: nat, b: nat)
    ensures Parse("-t " + Show(a) + "-" + Show(b)) == Ok(Range(a, b, 1))
  {
    ParseTwo(Show(a), Show(b));
    ParseShow(a);
    ParseShow(b);
  }

  /** `-t A-B:C` gives first A, last B and step C: the text that `get_run_id`
      writes after the dot reads back as the same task range. */
  lemma ParseRoundTrip(first: nat, last: nat, step: nat)
    ensures Parse("-t " + RangeText(first, last, step)) == Ok(Range(first, last, step))
  {
    ParseThree(Show(first), Show(last), Show(step));
    ParseShow(first);
    ParseShow(last);
    ParseShow(step);
  }

  /** `-t ` followed by text without any digit raises `ValueError`. */
  lemma {:induction false} ParseWithoutDigits(rest: string)
    requires forall k :: 0 <= k < |rest| ==> !IsDigit(rest[k])
    ensures Parse("-t " + rest).Err?
  {
    var s := "-t " + rest;
    ContainsAt(s, "-t ", 0);
    assert forall k :: 0 <= k < |s| ==> !IsDigit(s[k]) by {
      forall k | 0 <= k < |s| ensures !IsDigit(s[k]) {
        if k >= 3 {
          assert s[k] == rest[k - 3];
        }
      }
    }
    NoDigitNoSearch(s, 0);
  }

  /** Options without `-t ` give an object whose `first` is 0, so it is
      false; a parsed range with a non-zero first is true. */
  lemma {:induction false} TruthOfParse(opts: string)
    ensures !Contains(opts, "-t ") ==> Parse(opts).Ok? && !IsTrue(Parse(opts).value)
    ensures Parse(opts).Ok? && Parse(opts).value.Range? ==>
            (IsTrue(Parse(opts).value) <==> Parse(opts).value.first != 0)
  {
  }

  // ---------------------------------------------------------------------
  // get_run_id
  // ---------------------------------------------------------------------

  /** The exceptions `get_run_id` can raise. */
  datatype RunIdError =
    | MissingLast                   // AttributeError: no `-t` was parsed
    | ZeroStep                      // ZeroDivisionError
    | UnexpectedJobCount(got: nat)  // ValueError: wrong number of job ids
    | NoJobIds                      // IndexError on jobids[0]
    | MalformedJobId(id: string)    // ValueError unpacking split('.')

  function CountChar(s: string, c: char): nat {
    if s == [] then 0 else (if s[0] == c then 1 else 0) + CountChar(s[1..], c)
  }

  /** The SGE task numbers of a range: first, first+step, ... up to last. */
  function TaskIds(first: nat, last: nat, step: nat): seq<nat>
    requires step > 0
    decreases last + 1 - first
  {
    if first > last then [] else [first] + TaskIds(first + step, last, step)
  }

  /** The number of tasks in a non-empty range. */
  lemma {:induction false} TaskCount(first: nat, last: nat, step: nat)
    requires step > 0 && first <= last
    ensures |TaskIds(first, last, step)| == (last - first) / step + 1
    decreases last + 1 - first
  {
    if first + step <= last {
      TaskCount(first + step, last, step);
      assert (last - first) / step == (last - first - step) / step + 1 by {
        DivShift(last - first - step, step);
      }
    } else {
      assert (last - first) / step == 0;
    }
  }

  /** Division is determined by a quotient and a remainder in range. */
  lemma DivUnique(n: int, d: int, q: int, r: int)
    requires d > 0 && 0 <= r < d && n == q * d + r
    ensures n / d == q && n % d == r
  {
    var q0, r0 := n / d, n % d;
    assert (q0 - q) * d == r - r0;
    if q0 > q {
      MulAtLeast(q0 - q, d);
    } else if q0 < q {
      MulAtLeast(q - q0, d);
    }
  }

  lemma MulAtLeast(a: int, d: int)
    requires a >= 1 && d > 0
    ensures a * d >= d
  {
  }

  lemma DivShift(x: int, step: nat)
    requires step > 0
    ensures (x + step) / step == x / step + 1
    ensures (x + step) % step == x % step
  {
    DivUnique(x + step, step, x / step + 1, x % step);
  }

  /** A whole number equals a real quotient exactly when it is the exact
      integer quotient. */
  lemma RealQuotient(n: int, x: int, d: int)
    requires d > 0
    ensures (n as real == (x as real) / (d as real)) <==> n * d == x
  {
    assert (n * d) as real == (n as real) * (d as real);
    assert (x as real) / (d as real) * (d as real) == x as real;
  }

  /** The run id: the first job id's text before its dot, a dot, and the
      task range. */
  function RunIdText(jobid: string, t: Tasks): string
    requires t.Range?
  {
    BeforeDot(jobid) + "." + RangeText(t.first, t.last, t.step)
  }

  /** `get_run_id(jobids)` as written: under Python 3 `/` is true division,
      so the expected count `(last - first + step) / step` is a fraction
      whenever `last - first` is not a multiple of `step`. */
  function GetRunIdAsWritten(t: Tasks, jobids: seq<string>): (r: Result<string, RunIdError>)
    ensures r.Ok? <==> t.Range? && t.step > 0 &&
                       |jobids| as real == ((t.last - t.first + t.step) as real) / (t.step as real) &&
                       |jobids| > 0 && CountChar(jobids[0], '.') == 1
    ensures r.Ok? ==> r.value == RunIdText(jobids[0], t)
    ensures r.Err? && r.error.UnexpectedJobCount? ==> r.error.got == |jobids|
  {
    if t.NoRange? then Err(MissingLast)
    else if t.step == 0 then Err(ZeroStep)
    else if |jobids| as real != ((t.last - t.first + t.step) as real) / (t.step as real)
    then Err(UnexpectedJobCount(|jobids|))
    else if |jobids| == 0 then Err(NoJobIds)
    else if CountChar(jobids[0], '.') != 1 then Err(MalformedJobId(jobids[0]))
    else Ok(RunIdText(jobids[0], t))
  }

  /** As written, a range whose length is not a multiple of its step is
      refused even with exactly one job id per SGE task: `-t 1-10:2` runs
      tasks 1, 3, 5, 7 and 9, and the five ids are rejected. */
  lemma AsWrittenRejectsUnevenRange()
    ensures |TaskIds(1, 10, 2)| == 5
    ensures GetRunIdAsWritten(Range(1, 10, 2), ["7.1", "7.3", "7.5", "7.7", "7.9"]).Err?
    ensures GetRunId(Range(1, 10, 2), ["7.1", "7.3", "7.5", "7.7", "7.9"]).Ok?
  {
    TaskCount(1, 10, 2);
    var ids := ["7.1", "7.3", "7.5", "7.7", "7.9"];
    assert ids[0] == "7.1";
    assert CountChar("7.1", '.') == 1;
  }

  /** `get_run_id(jobids)` corrected: the expected count is computed by
      floor division, which is the number of SGE tasks in the range (the
      code as written runs under Python 3, where `/` is true division).
      It succeeds exactly when there is a range with a non-zero step, the
      number of ids is the expected count, and the first id has one dot. */
  function GetRunId(t: Tasks, jobids: seq<string>): (r: Result<string, RunIdError>)
    ensures r.Ok? <==> t.Range? && t.step > 0 &&
                       |jobids| == (t.last - t.first + t.step) / t.step &&
                       |jobids| > 0 && CountChar(jobids[0], '.') == 1
    ensures r.Ok? ==> r.value == RunIdText(jobids[0], t)
  {
    if t.NoRange? then Err(MissingLast)
    else if t.step == 0 then Err(ZeroStep)
    else if |jobids| != (t.last - t.first + t.step) / t.step then Err(UnexpectedJobCount(|jobids|))
    else if |jobids| == 0 then Err(NoJobIds)
    else if CountChar(jobids[0], '.') != 1 then Err(MalformedJobId(jobids[0]))
    else Ok(RunIdText(jobids[0], t))
  }

  /** For a non-empty range the accepted number of ids is exactly the
      number of SGE tasks. */
  lemma {:induction false} RunIdMatchesTasks(t: Tasks, jobids: seq<string>)
    requires t.Range? && t.step > 0 && t.first <= t.last
    ensures GetRunId(t, jobids).Ok? ==> |jobids| == |TaskIds(t.first, t.last, t.step)|
  {
    if GetRunId(t, jobids).Ok? {
      TaskCount(t.first, t.last, t.step);
      DivShift(t.last - t.first, t.step);
    }
  }

  /** The returned run id is the first id's job part followed by a range
      text that parses back to the same tasks. */
  lemma RunIdParsesBack(t: Tasks, jobids: seq<string>)
    ensures GetRunId(t, jobids).Ok? ==>
            exists rt :: GetRunId(t, jobids).value == BeforeDot(jobids[0]) + "." + rt &&
                         Parse("-t " + rt) == Ok(t)
  {
    if GetRunId(t, jobids).Ok? {
      var rt := RangeText(t.first, t.last, t.step);
      RangeParsesBack(t);
      assert GetRunId(t, jobids).value == BeforeDot(jobids[0]) + "." + rt;
    }
  }

  lemma RangeParsesBack(t: Tasks)
    requires t.Range?
    ensures Parse("-t " + RangeText(t.first, t.last, t.step)) == Ok(t)
  {
    ParseRoundTrip(t.first, t.last, t.step);
  }

  /** The count test of the code as written implies the floor-division
      one, and the two coincide when the step divides the length. */
  lemma CountTests(n: nat, x: int, d: nat)
    requires d > 0
    ensures n as real == (x as real) / (d as real) ==> n == x / d
    ensures x % d == 0 ==> (n as real == (x as real) / (d as real) <==> n == x / d)
  {
    RealQuotient(n, x, d);
    if n * d == x {
      DivUnique(x, d, n, 0);
    }
    if x % d == 0 && n == x / d {
      assert x == d * (x / d) + x % d;
    }
  }

  /** Whatever the code as written accepts, the corrected one accepts with
      the same run id; on ranges whose length is a multiple of the step the
      two agree on every input. */
  lemma {:induction false} AsWrittenAgreesOnEvenRanges(t: Tasks, jobids: seq<string>)
    ensures GetRunIdAsWritten(t, jobids).Ok? ==> GetRunId(t, jobids) == GetRunIdAsWritten(t, jobids)
    ensures t.Range? && t.step > 0 && (t.last - t.first) % t.step == 0 ==>
            GetRunId(t, jobids) == GetRunIdAsWritten(t, jobids)
  {
    if t.Range? && t.step > 0 {
      DivShift(t.last - t.first, t.step);
      CountTests(|jobids|, t.last - t.first + t.step, t.step);
    }
  }

  /** The source's worked examples. */
  lemma RunIdExampleRange()
    ensures GetRunId(Range(4, 10, 2), ["foo.4", "foo.6", "foo.8", "foo.10"]) == Ok("foo.4-10:2")
  {
    var ids := ["foo.4", "foo.6", "foo.8", "foo.10"];
    assert ids[0] == "foo.4";
    assert CountChar("foo.4", '.') == 1 by {
      assert CountChar("4", '.') == 0;
    }
    assert BeforeDot("foo.4") == "foo";
    assert RangeText(4, 10, 2) == "4-10:2" by {
      assert Show(10) == "10";
    }
    assert RunIdText("foo.4", Range(4, 10, 2)) == "foo.4-10:2";
  }

  lemma RunIdExampleSteps()
    ensures GetRunId(Range(1, 3, 1), ["foo.1", "foo.2", "foo.3"]) == Ok("foo.1-3:1")
    ensures GetRunId(Range(4, 10, 2), ["foo.1", "foo.2", "foo.3"]) == Err(UnexpectedJobCount(3))
  {
    var ids := ["foo.1", "foo.2", "foo.3"];
    assert ids[0] == "foo.1";
    assert CountChar("foo.1", '.') == 1 by {
      assert CountChar("1", '.') == 0;
    }
    assert BeforeDot("foo.1") == "foo";
    assert RangeText(1, 3, 1) == "1-3:1";
    assert RunIdText("foo.1", Range(1, 3, 1)) == "foo.1-3:1";
  }
}
