/**
  compare_cycles.py: walks two trace logs line by line (this emulator's
  output against the reference nestest log), compares a fixed-offset
  suffix of each pair and reports the first pair that differs.

  The log files are sequences of lines; a line keeps its trailing newline,
  as Python's file iteration does. Python's slicing and `str.strip` are
  modelled with their out-of-range and ASCII-whitespace behaviour.
*/
module CompareCycles {
  import opened Wrappers

  /** Offsets of the compared suffixes, of the report label and of the
      reported remainder. */
  const OwnOffset: nat := 5
  const ReferenceOffset: nat := 86
  const LabelLength: nat := 4
  const RemainderOffset: nat := 9

  /** The fixed text of the two report lines. */
  const DifferenceHeading: string := "Difference found in line '"
  const CyclesHeading: string := "   Incorrect cycles: "

  // ------------------------------------------------------------ Python slicing

  /** `s[n:]`: empty when `n` is past the end, never an error. */
  function Drop(s: string, n: nat): (r: string)
    ensures n <= |s| ==> r == s[n..]
    ensures n >= |s| ==> r == []
  {
    if n <= |s| then s[n..] else []
  }

  /** `s[:n]`: the whole string when it is shorter than `n`. */
  function Take(s: string, n: nat): (r: string)
    ensures |r| <= n && r <= s
    ensures |s| >= n ==> |r| == n
    ensures |s| <= n ==> r == s
  {
    if n <= |s| then s[..n] else s
  }

  // ------------------------------------------------------------ str.strip

  /** The ASCII characters `str.isspace` accepts: tab, newline, vertical
      tab, form feed, carriage return, the four information separators
      0x1C-0x1F and space. */
  predicate IsSpace(c: char)
  {
    (9 <= c as int <= 13) || (0x1C <= c as int <= 0x1F) || c == ' '
  }

  predicate AllSpace(s: string)
  {
    forall i :: 0 <= i < |s| ==> IsSpace(s[i])
  }

  /** Neither starts nor ends with whitespace. */
  predicate Trimmed(s: string)
  {
    |s| == 0 || (!IsSpace(s[0]) && !IsSpace(s[|s| - 1]))
  }

  /** `s.lstrip()`: drops the leading whitespace. */
  function StripLeft(s: string): (r: string)
    ensures |r| <= |s| && r == s[|s| - |r|..]
    ensures AllSpace(s[..|s| - |r|])
    ensures |r| > 0 ==> !IsSpace(r[0])
  {
    if |s| > 0 && IsSpace(s[0]) then StripLeft(s[1..]) else s
  }

  /** `s.rstrip()`: drops the trailing whitespace. */
  function StripRight(s: string): (r: string)
    ensures |r| <= |s| && r == s[..|r|]
    ensures AllSpace(s[|r|..])
    ensures |r| > 0 ==> !IsSpace(r[|r| - 1])
  {
    if |s| > 0 && IsSpace(s[|s| - 1]) then StripRight(s[..|s| - 1]) else s
  }

  /** `s.strip()`: the text between the leading and the trailing whitespace. */
  function Strip(s: string): string
  {
    StripLeft(StripRight(s))
  }

  /** strip's result neither starts nor ends with whitespace. */
  lemma StripTrimmed(s: string)
    ensures Trimmed(Strip(s))
  {
    var right := StripRight(s);
    var r := StripLeft(right);
    if |r| > 0 {
      assert r == right[|right| - |r|..];
      assert r[|r| - 1] == right[|right| - 1];
    }
  }

  /** strip returns a trimmed slice of its input with only whitespace
      around it. */
  lemma StripShape(s: string)
    ensures Trimmed(Strip(s))
    ensures exists i :: 0 <= i <= |s| - |Strip(s)| && Strip(s) == s[i..i + |Strip(s)|]
              && AllSpace(s[..i]) && AllSpace(s[i + |Strip(s)|..])
  {
    StripTrimmed(s);
    var right := StripRight(s);
    SliceShape(s, right, StripLeft(right));
  }

  /** A whitespace-stripped suffix of a whitespace-stripped prefix is a
      slice with only whitespace around it. */
  lemma SliceShape(s: string, prefix: string, r: string)
    requires |prefix| <= |s| && prefix == s[..|prefix|] && AllSpace(s[|prefix|..])
    requires |r| <= |prefix| && r == prefix[|prefix| - |r|..] && AllSpace(prefix[..|prefix| - |r|])
    ensures exists i :: 0 <= i <= |s| - |r| && r == s[i..i + |r|] && AllSpace(s[..i]) && AllSpace(s[i + |r|..])
  {
    var i := |prefix| - |r|;
    assert prefix[..i] == s[..i];
    assert r == s[i..i + |r|];
    assert s[i + |r|..] == s[|prefix|..];
  }

  /** Trailing whitespace after a string that does not end in it is exactly
      what rstrip removes. */
  lemma {:induction false} StripRightSpaces(x: string, q: string)
    requires AllSpace(q) && (|x| == 0 || !IsSpace(x[|x| - 1]))
    ensures StripRight(x + q) == x
    decreases |q|
  {
    if |q| > 0 {
      assert (x + q)[..|x + q| - 1] == x + q[..|q| - 1];
      StripRightSpaces(x, q[..|q| - 1]);
    } else {
      assert x + q == x;
    }
  }

  /** Leading whitespace before a string that does not start with it is
      exactly what lstrip removes. */
  lemma {:induction false} StripLeftSpaces(p: string, x: string)
    requires AllSpace(p) && (|x| == 0 || !IsSpace(x[0]))
    ensures StripLeft(p + x) == x
    decreases |p|
  {
    if |p| > 0 {
      assert (p + x)[1..] == p[1..] + x;
      StripLeftSpaces(p[1..], x);
    } else {
      assert p + x == x;
    }
  }

  /** strip is determined by its result's shape: whatever whitespace
      surrounds a trimmed string, strip returns that string. */
  lemma StripUnique(p: string, t: string, q: string)
    requires AllSpace(p) && AllSpace(q) && Trimmed(t)
    ensures Strip(p + t + q) == t
  {
    if |t| > 0 {
      StripRightSpaces(p + t, q);
      StripLeftSpaces(p, t);
    } else {
      assert p + t + q == (p + q) + [];
      assert AllSpace(p + q);
      StripRightSpaces([], p + q);
      assert [] + (p + q) == p + q;
      StripLeftSpaces([], []);
    }
  }

  /** Stripping twice is stripping once. */
  lemma StripIdempotent(s: string)
    ensures Strip(Strip(s)) == Strip(s)
  {
    var t := Strip(s);
    StripTrimmed(s);
    StripUnique([], t, []);
    assert [] + t + [] == t;
  }

  // ------------------------------------------------------------ Comparison

  /** The pair differs: `line1[5:] != line2[86:]`. */
  predicate Differs(own: string, reference: string)
  {
    Drop(own, OwnOffset) != Drop(reference, ReferenceOffset)
  }

  /** `zip` stops at the shorter file. */
  function Paired(a: seq<string>, b: seq<string>): (n: nat)
    ensures n <= |a| && n <= |b| && (n == |a| || n == |b|)
  {
    if |a| <= |b| then |a| else |b|
  }

  /** The loop from index `from` on: the index of the first differing pair,
      or None when every remaining pair agrees. */
  function FirstDivergence(a: seq<string>, b: seq<string>, from: nat): (r: Option<nat>)
    requires from <= Paired(a, b)
    ensures r.Some? ==> && from <= r.value < Paired(a, b)
                        && Differs(a[r.value], b[r.value])
                        && forall j :: from <= j < r.value ==> !Differs(a[j], b[j])
    ensures r.None? ==> forall j :: from <= j < Paired(a, b) ==> !Differs(a[j], b[j])
    decreases Paired(a, b) - from
  {
    if from == Paired(a, b) then None
    else if Differs(a[from], b[from]) then Some(from)
    else FirstDivergence(a, b, from + 1)
  }

  /** The report the script prints about a differing pair: the 1-based line
      number (counted, but not part of the output), A's line[:4] and A's
      line[9:] stripped. */
  datatype Report = Report(lineNumber: nat, prefix: string, remainder: string)

  /** The report about line `k` (0-based) of A. */
  function ReportAbout(line: string, k: nat): Report
  {
    Report(k + 1, Take(line, LabelLength), Strip(Drop(line, RemainderOffset)))
  }

  /** main's loop: the report about the first differing pair, if any. */
  function Compare(a: seq<string>, b: seq<string>): (r: Option<Report>)
    ensures r.None? <==> forall j :: 0 <= j < Paired(a, b) ==> !Differs(a[j], b[j])
    ensures r.Some? ==> var k := r.value.lineNumber - 1;
              && 1 <= r.value.lineNumber <= Paired(a, b)
              && Differs(a[k], b[k])
              && (forall j :: 0 <= j < k ==> !Differs(a[j], b[j]))
              && r.value == ReportAbout(a[k], k)
  {
    match FirstDivergence(a, b, 0)
    case None => None
    case Some(k) => Some(ReportAbout(a[k], k))
  }

  /** Everything the script prints: the working directory, then the two
      report lines when some pair differs. */
  function Output(cwd: string, a: seq<string>, b: seq<string>): (r: seq<string>)
    ensures |r| >= 1 && r[0] == cwd
    ensures |r| == 1 <==> Compare(a, b).None?
    ensures Compare(a, b).Some? ==>
              var k := Compare(a, b).value.lineNumber - 1;
              && |r| == 3
              && r[1] == DifferenceHeading + Take(a[k], LabelLength) + "'"
              && r[2] == CyclesHeading + Strip(Drop(a[k], RemainderOffset))
  {
    match Compare(a, b)
    case None => [cwd]
    case Some(report) =>
      assert report == ReportAbout(a[report.lineNumber - 1], report.lineNumber - 1);
      [cwd,
       DifferenceHeading + report.prefix + "'",
       CyclesHeading + report.remainder]
  }

  // ------------------------------------------------------------ Properties

  /** The report's fields are what the printout promises: a label of at
      most four characters and a remainder without surrounding whitespace
      that stripping again does not change. */
  lemma ReportShape(a: seq<string>, b: seq<string>)
    requires Compare(a, b).Some?
    ensures var report := Compare(a, b).value;
            |report.prefix| <= LabelLength && Trimmed(report.remainder)
            && Strip(report.remainder) == report.remainder
  {
    var line := Drop(a[Compare(a, b).value.lineNumber - 1], RemainderOffset);
    StripShape(line);
    StripIdempotent(line);
  }

  /** The report is the one about the smallest differing index, whichever
      way that index is found. */
  lemma CompareFindsFirst(a: seq<string>, b: seq<string>, k: nat)
    requires k < Paired(a, b) && Differs(a[k], b[k])
    requires forall j :: 0 <= j < k ==> !Differs(a[j], b[j])
    ensures Compare(a, b) == Some(ReportAbout(a[k], k))
  {
    assert Compare(a, b).Some?;
    var i := Compare(a, b).value.lineNumber - 1;
    assert !(i < k);
    assert !(k < i);
  }

  /** Two pairs of logs that pair up the same lines up to `n` and agree on
      every pair before it get the same report about index `n` or earlier. */
  lemma SamePairsSameReport(a: seq<string>, b: seq<string>, a': seq<string>, b': seq<string>, n: nat)
    requires n <= Paired(a, b) && n <= Paired(a', b')
    requires forall j :: 0 <= j < n ==> a'[j] == a[j] && b'[j] == b[j]
    requires Compare(a, b).Some? && Compare(a, b).value.lineNumber <= n
    ensures Compare(a', b') == Compare(a, b)
  {
    var k := Compare(a, b).value.lineNumber - 1;
    forall j | 0 <= j < k
      ensures !Differs(a'[j], b'[j])
    {
      assert !Differs(a[j], b[j]);
    }
    CompareFindsFirst(a', b', k);
  }

  /** Lines of the longer file past the end of the shorter one are never
      looked at. */
  lemma ExtraLinesIgnored(a: seq<string>, b: seq<string>)
    ensures var n := Paired(a, b);
            Compare(a, b) == Compare(a[..n], b[..n])
  {
    var n := Paired(a, b);
    var a', b' := a[..n], b[..n];
    assert Paired(a', b') == n;
    if Compare(a, b).Some? {
      SamePairsSameReport(a, b, a', b', n);
    } else {
      forall j | 0 <= j < n
        ensures !Differs(a'[j], b'[j])
      {
        assert a'[j] == a[j] && b'[j] == b[j];
      }
    }
  }

  /** The comparison stops at the first difference: lines after it, in
      either file, do not change the result. */
  lemma LaterLinesIgnored(a: seq<string>, b: seq<string>, a': seq<string>, b': seq<string>)
    requires Compare(a, b).Some?
    requires var k := Compare(a, b).value.lineNumber;
             a[..k] <= a' && b[..k] <= b'
    ensures Compare(a', b') == Compare(a, b)
  {
    var n := Compare(a, b).value.lineNumber;
    forall j | 0 <= j < n
      ensures a'[j] == a[j] && b'[j] == b[j]
    {
      assert a[..n][j] == a[j] && b[..n][j] == b[j];
    }
    SamePairsSameReport(a, b, a', b', n);
  }

  /** Identical suffixes everywhere print only the working directory. */
  lemma AgreeingLogsPrintOnlyCwd(cwd: string, a: seq<string>, b: seq<string>)
    requires forall j :: 0 <= j < Paired(a, b) ==> Drop(a[j], OwnOffset) == Drop(b[j], ReferenceOffset)
    ensures Output(cwd, a, b) == [cwd]
  {
  }

  /** A report example: the line "1234Program: COUNTER=7\n" against a
      reference line with a different tail is reported with prefix "1234"
      and remainder "am: COUNTER=7", the characters from index 9 on with
      the newline stripped. */
  lemma ReportExample(cwd: string, reference: string)
    requires Drop(reference, ReferenceOffset) != "rogram: COUNTER=7\n"
    ensures Output(cwd, ["1234Program: COUNTER=7\n"], [reference])
              == [cwd, DifferenceHeading + "1234" + "'", CyclesHeading + "am: COUNTER=7"]
  {
    ExampleCompare(reference);
  }

  /** The example's report. */
  lemma ExampleCompare(reference: string)
    requires Drop(reference, ReferenceOffset) != "rogram: COUNTER=7\n"
    ensures Compare(["1234Program: COUNTER=7\n"], [reference]) == Some(Report(1, "1234", "am: COUNTER=7"))
  {
    ExampleLine();
    CompareFindsFirst(["1234Program: COUNTER=7\n"], [reference], 0);
  }

  /** The example line's slices: its compared suffix, prefix and the
      remainder stripped. */
  lemma ExampleLine()
    ensures var line := "1234Program: COUNTER=7\n";
            && Drop(line, OwnOffset) == "rogram: COUNTER=7\n"
            && ReportAbout(line, 0) == Report(1, "1234", "am: COUNTER=7")
  {
    ExampleSlices();
    ExampleStrip();
  }

  /** The example line's label and the remainder before stripping. */
  lemma ExampleSlices()
    ensures Take("1234Program: COUNTER=7\n", LabelLength) == "1234"
    ensures Drop("1234Program: COUNTER=7\n", RemainderOffset) == "am: COUNTER=7\n"
  {
    var line := "1234Program: COUNTER=7\n";
    assert line[..4] == "1234";
    assert line[9..] == "am: COUNTER=7\n";
  }

  /** Stripping the example remainder removes just the newline. */
  lemma ExampleStrip()
    ensures Strip("am: COUNTER=7\n") == "am: COUNTER=7"
  {
    StripUnique([], "am: COUNTER=7", "\n");
    assert [] + "am: COUNTER=7" + "\n" == "am: COUNTER=7\n";
  }

  /** A line shorter than its offset compares as the empty string: a short
      own line matches a short reference line. */
  lemma ShortLinesAgree(own: string, reference: string)
    requires |own| <= OwnOffset && |reference| <= ReferenceOffset
    ensures !Differs(own, reference)
  {
  }
}
