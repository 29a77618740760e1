/**
 * The coverage-badge script: the colour ladder, the Shields.io static-badge
 * URL with its escaping, the tally of a coverage report and the percentages.
 */
module CoverageBadge {
  import opened Wrappers
  import opened Strings
  import opened Decimal

  // ---------------------------------------------------------------------------
  // Colour ladder

  /** The colours from the lowest rung to the highest. */
  const Ladder: seq<string> := ["red", "orange", "yellow", "yellowgreen", "green", "brightgreen"]

  /** Reference definition of the rung: one rung per ten points from 50 up, capped at 90. */
  function Rung(p: int): (k: nat)
    ensures k < |Ladder|
  {
    if p < 50 then 0 else if p >= 90 then 5 else (p - 40) / 10
  }

  /** `getCoverageColor`: the first threshold the percentage reaches, from the top. */
  function CoverageColor(p: int): (r: string)
    ensures r == Ladder[Rung(p)]
  {
    if p >= 90 then "brightgreen"
    else if p >= 80 then "green"
    else if p >= 70 then "yellowgreen"
    else if p >= 60 then "yellow"
    else if p >= 50 then "orange"
    else "red"
  }

  /** Each rung above the bottom covers exactly the ten points from `40 + 10k`; the top one is open. */
  lemma RungBounds(p: int, k: nat)
    requires k < |Ladder|
    ensures Rung(p) == k <==>
      if k == 0 then p < 50
      else if k == 5 then p >= 90
      else 40 + 10 * k <= p < 50 + 10 * k
  {
  }

  /** A higher percentage never yields a lower rung. */
  lemma ColorMonotone(p: int, q: int)
    requires p <= q
    ensures Rung(p) <= Rung(q)
  {
  }

  // ---------------------------------------------------------------------------
  // Escaping

  /** The characters the JavaScript `\s` class matches. */
  predicate IsSpace(c: char) {
    c == ' ' || c == '\t' || c == '\n' || c == '\r' || c == '\U{000B}' || c == '\U{000C}'
    || c == '\U{00A0}' || c == '\U{1680}' || ('\U{2000}' <= c <= '\U{200A}')
    || c == '\U{2028}' || c == '\U{2029}' || c == '\U{202F}' || c == '\U{205F}'
    || c == '\U{3000}' || c == '\U{FEFF}'
  }

  predicate NoSpace(s: string) {
    forall i :: 0 <= i < |s| ==> !IsSpace(s[i])
  }

  predicate AllSpace(s: string) {
    forall i :: 0 <= i < |s| ==> IsSpace(s[i])
  }

  /** The rest of `s` after its leading whitespace. */
  function DropSpaces(s: string): (r: string)
    ensures |r| <= |s| && r == s[|s| - |r|..]
    ensures AllSpace(s[..|s| - |r|])
    ensures r == [] || !IsSpace(r[0])
  {
    if s != [] && IsSpace(s[0]) then DropSpaces(s[1..]) else s
  }

  /** `replace(/\s+/g, '_')`: every maximal run of whitespace becomes one `_`. */
  function CollapseSpaces(s: string): string
    decreases |s|
  {
    if s == [] then []
    else if IsSpace(s[0]) then "_" + CollapseSpaces(DropSpaces(s[1..]))
    else [s[0]] + CollapseSpaces(s[1..])
  }

  /** No whitespace survives the collapsing. */
  lemma {:induction false} CollapsedHasNoSpace(s: string)
    ensures NoSpace(CollapseSpaces(s))
    decreases |s|
  {
    if s != [] {
      if IsSpace(s[0]) {
        CollapsedHasNoSpace(DropSpaces(s[1..]));
      } else {
        CollapsedHasNoSpace(s[1..]);
      }
    }
  }

  /** Text without whitespace is left as it is. */
  lemma {:induction false} CollapseIdentity(s: string)
    requires NoSpace(s)
    ensures CollapseSpaces(s) == s
  {
    if s != [] {
      CollapseIdentity(s[1..]);
      assert s == [s[0]] + s[1..];
    }
  }

  /** `replace(/c/g, rep)`: every occurrence of `c` is replaced by `rep`, everything else is kept. */
  function ReplaceChar(s: string, c: char, rep: string): string {
    if s == [] then []
    else (if s[0] == c then rep else [s[0]]) + ReplaceChar(s[1..], c, rep)
  }

  /** Every character of the result comes from the input or from the replacement. */
  lemma {:induction false} ReplaceCharSources(s: string, c: char, rep: string)
    ensures forall x :: x in ReplaceChar(s, c, rep) ==> x in s || x in rep
  {
    if s != [] {
      ReplaceCharSources(s[1..], c, rep);
      var head := if s[0] == c then rep else [s[0]];
      var tail := ReplaceChar(s[1..], c, rep);
      assert ReplaceChar(s, c, rep) == head + tail;
      forall x | x in head + tail ensures x in s || x in rep {
        if x in tail {
          assert x in s[1..] || x in rep;
        }
      }
    }
  }

  /** Text without the replaced character is left as it is. */
  lemma {:induction false} ReplaceCharIdentity(s: string, c: char, rep: string)
    requires c !in s
    ensures ReplaceChar(s, c, rep) == s
  {
    if s != [] {
      ReplaceCharIdentity(s[1..], c, rep);
      assert s == [s[0]] + s[1..];
    }
  }

  /** The inverse of `ReplaceChar`: scanning from the left, each `rep` turns back into `c`. */
  function Restore(s: string, c: char, rep: string): string
    requires |rep| >= 1
    decreases |s|
  {
    if s == [] then []
    else if StartsWith(s, rep) then [c] + Restore(s[|rep|..], c, rep)
    else [s[0]] + Restore(s[1..], c, rep)
  }

  /** `cleanLabel`: whitespace runs to `_`, then `-` to `--`. */
  function CleanLabel(caption: string): string {
    ReplaceChar(CollapseSpaces(caption), '-', "--")
  }

  /** `cleanValue`: as the label, then `%` to `%25` (percent-encoding of section 2.1 of RFC 3986). */
  function CleanValue(value: string): string {
    ReplaceChar(ReplaceChar(CollapseSpaces(value), '-', "--"), '%', "%25")
  }

  const BadgePrefix := "https://img.shields.io/badge/"
  const BadgeSuffix := "?style=flat-square"

  /** Where each part of `prefix + l + "-" + v + "-" + color + suffix` lies. */
  predicate Laid(r: string, prefix: string, l: string, v: string, color: string, suffix: string) {
    var a := |prefix| + |l|;
    && |r| == a + 1 + |v| + 1 + |color| + |suffix|
    && r[..|prefix|] == prefix
    && r[|prefix|..a] == l
    && r[a] == '-'
    && r[a + 1..a + 1 + |v|] == v
    && r[a + 1 + |v|] == '-'
    && r[a + 2 + |v|..|r| - |suffix|] == color
    && r[|r| - |suffix|..] == suffix
  }

  lemma LayOut(prefix: string, l: string, v: string, color: string, suffix: string)
    ensures Laid(prefix + l + "-" + v + "-" + color + suffix, prefix, l, v, color, suffix)
  {
  }

  /**
   * `generateBadgeUrl`: the prefix, the cleaned label, a dash, the cleaned
   * value, a dash, the colour and the style suffix, each at its own place.
   */
  function BadgeUrl(caption: string, value: string, color: string): (r: string)
    ensures Laid(r, BadgePrefix, CleanLabel(caption), CleanValue(value), color, BadgeSuffix)
  {
    LayOut(BadgePrefix, CleanLabel(caption), CleanValue(value), color, BadgeSuffix);
    BadgePrefix + CleanLabel(caption) + "-" + CleanValue(value) + "-" + color + BadgeSuffix
  }

  /** Leading whitespace followed by a non-space character is dropped exactly. */
  lemma DropSpacesRun(run: string, tail: string)
    requires AllSpace(run)
    requires tail == [] || !IsSpace(tail[0])
    ensures DropSpaces(run + tail) == tail
  {
    var s := run + tail;
    var r := DropSpaces(s);
    assert r == s[|run|..];
  }

  /** A run of whitespace at the front becomes one `_`. */
  lemma CollapseLeadingRun(run: string, tail: string)
    requires |run| >= 1 && AllSpace(run)
    requires tail == [] || !IsSpace(tail[0])
    ensures CollapseSpaces(run + tail) == "_" + CollapseSpaces(tail)
  {
    assert (run + tail)[1..] == run[1..] + tail;
    DropSpacesRun(run[1..], tail);
  }

  /** A word, a run of whitespace, then the rest: the run becomes one `_` and the word is kept. */
  lemma {:induction false} CollapseRun(w: string, run: string, tail: string)
    requires NoSpace(w) && |run| >= 1 && AllSpace(run)
    requires tail == [] || !IsSpace(tail[0])
    ensures CollapseSpaces(w + run + tail) == w + "_" + CollapseSpaces(tail)
  {
    if w == [] {
      assert w + run + tail == run + tail;
      CollapseLeadingRun(run, tail);
    } else {
      var rest := "_" + CollapseSpaces(tail);
      assert CollapseSpaces(w + run + tail) == [w[0]] + CollapseSpaces(w[1..] + run + tail) by {
        assert (w + run + tail)[1..] == w[1..] + run + tail;
      }
      CollapseRun(w[1..], run, tail);
      assert [w[0]] + (w[1..] + rest) == w + rest;
    }
  }

  /** Replacement distributes over concatenation. */
  lemma {:induction false} ReplaceCharAppend(a: string, b: string, c: char, rep: string)
    ensures ReplaceChar(a + b, c, rep) == ReplaceChar(a, c, rep) + ReplaceChar(b, c, rep)
  {
    if a == [] {
      assert a + b == b;
    } else {
      assert (a + b)[0] == a[0] && (a + b)[1..] == a[1..] + b;
      ReplaceCharAppend(a[1..], b, c, rep);
    }
  }

  /** `Restore` undoes `ReplaceChar` whenever the replacement starts with the replaced character. */
  lemma {:induction false} RestoreReplaceChar(s: string, c: char, rep: string)
    requires |rep| >= 1 && rep[0] == c
    ensures Restore(ReplaceChar(s, c, rep), c, rep) == s
  {
    if s != [] {
      var t := ReplaceChar(s, c, rep);
      var rest := ReplaceChar(s[1..], c, rep);
      RestoreReplaceChar(s[1..], c, rep);
      if s[0] == c {
        assert t == rep + rest;
        assert StartsWith(t, rep);
        assert t[|rep|..] == rest;
      } else {
        assert t == [s[0]] + rest;
        NotPrefixed(t, rep, 0);
        assert t[1..] == rest;
      }
      assert s == [s[0]] + s[1..];
    }
  }

  /** Replacing a character by whitespace-free text introduces no whitespace. */
  lemma ReplaceKeepsNoSpace(s: string, c: char, rep: string)
    requires NoSpace(s) && NoSpace(rep)
    ensures NoSpace(ReplaceChar(s, c, rep))
  {
    var r := ReplaceChar(s, c, rep);
    ReplaceCharSources(s, c, rep);
    forall i | 0 <= i < |r| ensures !IsSpace(r[i]) {
      assert r[i] in r;
      if r[i] in s {
        var j :| 0 <= j < |s| && s[j] == r[i];
      } else {
        var j :| 0 <= j < |rep| && rep[j] == r[i];
      }
    }
  }

  /** Undoubling the dashes of a cleaned label gives back the label with its whitespace collapsed. */
  lemma LabelRoundTrip(caption: string)
    ensures Restore(CleanLabel(caption), '-', "--") == CollapseSpaces(caption)
  {
    RestoreReplaceChar(CollapseSpaces(caption), '-', "--");
  }

  /** Unescaping `%25`, then undoubling dashes, gives back the value with its whitespace collapsed. */
  lemma ValueRoundTrip(value: string)
    ensures Restore(Restore(CleanValue(value), '%', "%25"), '-', "--") == CollapseSpaces(value)
  {
    RestoreReplaceChar(ReplaceChar(CollapseSpaces(value), '-', "--"), '%', "%25");
    RestoreReplaceChar(CollapseSpaces(value), '-', "--");
  }

  /** Neither the cleaned label nor the cleaned value contains whitespace. */
  lemma CleanedHaveNoSpace(caption: string, value: string)
    ensures NoSpace(CleanLabel(caption)) && NoSpace(CleanValue(value))
  {
    CollapsedHasNoSpace(caption);
    CollapsedHasNoSpace(value);
    ReplaceKeepsNoSpace(CollapseSpaces(caption), '-', "--");
    ReplaceKeepsNoSpace(CollapseSpaces(value), '-', "--");
    ReplaceKeepsNoSpace(ReplaceChar(CollapseSpaces(value), '-', "--"), '%', "%25");
  }

  /** A percentage message `${p}%` is sent as the digits followed by `%25`. */
  lemma PercentMessage(p: nat)
    ensures CleanValue(IntToString(p) + "%") == NatToString(p) + "%25"
  {
    var d := NatToString(p);
    var v := d + "%";
    assert NoSpace(v) by {
      forall i | 0 <= i < |v| ensures !IsSpace(v[i]) {
        if i < |d| { assert IsDigit(d[i]); }
      }
    }
    assert '-' !in v by {
      forall i | 0 <= i < |v| ensures v[i] != '-' {
        if i < |d| { assert IsDigit(d[i]); }
      }
    }
    assert '%' !in d by {
      forall i | 0 <= i < |d| ensures d[i] != '%' { assert IsDigit(d[i]); }
    }
    CollapseIdentity(v);
    ReplaceCharIdentity(v, '-', "--");
    ReplaceCharIdentity(d, '%', "%25");
    ReplaceCharAppend(d, "%", '%', "%25");
    assert ReplaceChar("%", '%', "%25") == "%25";
  }

  // ---------------------------------------------------------------------------
  // Tally

  /**
   * One file of a coverage report. Each map of hit counts is given by its
   * counts; a map that is absent is `None`. `branches` holds one array of
   * counts per branch point.
   */
  datatype FileCoverage = FileCoverage(
    statements: Option<seq<int>>,
    branches: Option<seq<seq<int>>>,
    functions: Option<seq<int>>,
    lines: Option<seq<int>>)

  /** A covered/total pair for one metric. */
  datatype Counter = Counter(total: nat, covered: nat) {
    predicate Sound() { covered <= total }
    function Add(total': nat, covered': nat): Counter {
      Counter(total + total', covered + covered')
    }
  }

  datatype Totals = Totals(statements: Counter, branches: Counter, functions: Counter, lines: Counter) {
    predicate Sound() {
      statements.Sound() && branches.Sound() && functions.Sound() && lines.Sound()
    }
  }

  /** `filter(count => count > 0).length` */
  function CountPositive(xs: seq<int>): nat {
    if xs == [] then 0 else CountPositive(xs[..|xs| - 1]) + (if xs[|xs| - 1] > 0 then 1 else 0)
  }

  /** The hits are a filtered subset, so never more than the entries. */
  lemma {:induction false} CountPositiveBound(xs: seq<int>)
    ensures CountPositive(xs) <= |xs|
  {
    if xs != [] {
      CountPositiveBound(xs[..|xs| - 1]);
    }
  }

  /** Entries of one map of counts, nothing when the map is absent. */
  function MapEntries(m: Option<seq<int>>): nat {
    if m.Some? then |m.value| else 0
  }

  function MapHits(m: Option<seq<int>>): nat {
    if m.Some? then CountPositive(m.value) else 0
  }

  /** Entries over the first `n` branch points. */
  function BranchEntries(b: seq<seq<int>>): nat {
    if b == [] then 0 else BranchEntries(b[..|b| - 1]) + |b[|b| - 1]|
  }

  function BranchHits(b: seq<seq<int>>): nat {
    if b == [] then 0 else BranchHits(b[..|b| - 1]) + CountPositive(b[|b| - 1])
  }

  /** The counters after one more file: each metric it has adds its entries and its hits. */
  function AddFile(t: Totals, f: FileCoverage): Totals {
    var b := if f.branches.Some? then f.branches.value else [];
    Totals(
      t.statements.Add(MapEntries(f.statements), MapHits(f.statements)),
      t.branches.Add(BranchEntries(b), BranchHits(b)),
      t.functions.Add(MapEntries(f.functions), MapHits(f.functions)),
      t.lines.Add(MapEntries(f.lines), MapHits(f.lines)))
  }

  const Zero := Totals(Counter(0, 0), Counter(0, 0), Counter(0, 0), Counter(0, 0))

  /** The totals the report's files add up to, file by file in order. */
  function SumTotals(files: seq<FileCoverage>): Totals {
    if files == [] then Zero else AddFile(SumTotals(files[..|files| - 1]), files[|files| - 1])
  }

  lemma {:induction false} BranchHitsBound(b: seq<seq<int>>)
    ensures BranchHits(b) <= BranchEntries(b)
  {
    if b != [] {
      BranchHitsBound(b[..|b| - 1]);
      CountPositiveBound(b[|b| - 1]);
    }
  }

  /** Covered counts never exceed totals, for every metric. */
  lemma {:induction false} SumTotalsSound(files: seq<FileCoverage>)
    ensures SumTotals(files).Sound()
  {
    if files != [] {
      SumTotalsSound(files[..|files| - 1]);
      var f := files[|files| - 1];
      if f.statements.Some? { CountPositiveBound(f.statements.value); }
      if f.branches.Some? { BranchHitsBound(f.branches.value); }
      if f.functions.Some? { CountPositiveBound(f.functions.value); }
      if f.lines.Some? { CountPositiveBound(f.lines.value); }
    }
  }

  /** The inner `forEach` over a file's branch points. */
  method TallyBranches(b: seq<seq<int>>) returns (total: nat, covered: nat)
    ensures total == BranchEntries(b) && covered == BranchHits(b)
  {
    total, covered := 0, 0;
    var j := 0;
    while j < |b|
      invariant 0 <= j <= |b|
      invariant total == BranchEntries(b[..j]) && covered == BranchHits(b[..j])
    {
      assert b[..j + 1][..j] == b[..j];
      total := total + |b[j]|;
      covered := covered + CountPositive(b[j]);
      j := j + 1;
    }
    assert b[..|b|] == b;
  }

  /** The eight counters of the script, accumulated over the files in order. */
  method Tally(files: seq<FileCoverage>) returns (t: Totals)
    ensures t == SumTotals(files)
    ensures t.Sound()
  {
    var totalStatements: nat, coveredStatements: nat := 0, 0;
    var totalBranches: nat, coveredBranches: nat := 0, 0;
    var totalFunctions: nat, coveredFunctions: nat := 0, 0;
    var totalLines: nat, coveredLines: nat := 0, 0;
    var i := 0;
    while i < |files|
      invariant 0 <= i <= |files|
      invariant SumTotals(files[..i]) == Totals(
        Counter(totalStatements, coveredStatements), Counter(totalBranches, coveredBranches),
        Counter(totalFunctions, coveredFunctions), Counter(totalLines, coveredLines))
    {
      var file := files[i];
      assert files[..i + 1][..i] == files[..i];
      assert SumTotals(files[..i + 1]) == AddFile(SumTotals(files[..i]), file);
      ghost var before := SumTotals(files[..i]);
      if file.statements.Some? {
        totalStatements := totalStatements + |file.statements.value|;
        coveredStatements := coveredStatements + CountPositive(file.statements.value);
      }
      if file.branches.Some? {
        var total, covered := TallyBranches(file.branches.value);
        totalBranches := totalBranches + total;
        coveredBranches := coveredBranches + covered;
      }
      if file.functions.Some? {
        totalFunctions := totalFunctions + |file.functions.value|;
        coveredFunctions := coveredFunctions + CountPositive(file.functions.value);
      }
      if file.lines.Some? {
        totalLines := totalLines + |file.lines.value|;
        coveredLines := coveredLines + CountPositive(file.lines.value);
      }
      assert Counter(totalStatements, coveredStatements) == before.statements.Add(MapEntries(file.statements), MapHits(file.statements));
      assert Counter(totalFunctions, coveredFunctions) == before.functions.Add(MapEntries(file.functions), MapHits(file.functions));
      assert Counter(totalLines, coveredLines) == before.lines.Add(MapEntries(file.lines), MapHits(file.lines));
      i := i + 1;
    }
    assert files[..|files|] == files;
    t := Totals(
      Counter(totalStatements, coveredStatements), Counter(totalBranches, coveredBranches),
      Counter(totalFunctions, coveredFunctions), Counter(totalLines, coveredLines));
    SumTotalsSound(files);
  }

  // ---------------------------------------------------------------------------
  // Percentages

  /**
   * `total > 0 ? Math.round(covered / total * 100) : fallback`, with the
   * rounding done exactly: halves round up.
   */
  function Percent(c: Counter, fallback: int): (p: int)
    ensures c.total == 0 ==> p == fallback
    ensures c.total > 0 ==> 2 * c.total * p <= 200 * c.covered + c.total < 2 * c.total * (p + 1)
  {
    if c.total > 0 then
      var n, d := 200 * c.covered + c.total, 2 * c.total;
      var q := n / d;
      assert d * q <= n < d * q + d;
      q
    else fallback
  }

  /** Multiplying by a non-negative factor keeps the order. */
  lemma MulMonotone(t: nat, a: int, b: int)
    requires a <= b
    ensures t * a <= t * b
  {
    assert t * b - t * a == t * (b - a);
  }

  /** A sound counter with entries gives a percentage between 0 and 100. */
  lemma PercentBounds(c: Counter, fallback: int)
    requires c.Sound() && c.total > 0
    ensures 0 <= Percent(c, fallback) <= 100
  {
    var p, t := Percent(c, fallback), c.total;
    if p < 0 {
      MulMonotone(2 * t, p + 1, 0);
    } else if p > 100 {
      MulMonotone(2 * t, 101, p);
    }
  }

  /** Full coverage is 100% and none is 0%. */
  lemma PercentExtremes(t: nat, fallback: int)
    requires t > 0
    ensures Percent(Counter(t, t), fallback) == 100
    ensures Percent(Counter(t, 0), fallback) == 0
  {
    var p := Percent(Counter(t, t), fallback);
    if p < 100 {
      MulMonotone(2 * t, p + 1, 100);
    } else if p > 100 {
      MulMonotone(2 * t, 101, p);
    }
    var z := Percent(Counter(t, 0), fallback);
    if z < 0 {
      MulMonotone(2 * t, z + 1, 0);
    } else if z > 0 {
      MulMonotone(2 * t, 1, z);
    }
  }

  /** The four percentages: an empty metric counts as 0%, except branches, which count as 100%. */
  datatype Percentages = Percentages(statements: int, branches: int, functions: int, lines: int)

  function ReportPercentages(t: Totals): (r: Percentages)
    ensures t.statements.total == 0 ==> r.statements == 0
    ensures t.branches.total == 0 ==> r.branches == 100
    ensures t.functions.total == 0 ==> r.functions == 0
    ensures t.lines.total == 0 ==> r.lines == 0
    ensures t.statements.total > 0 ==> r.statements == Percent(t.statements, 0)
    ensures t.branches.total > 0 ==> r.branches == Percent(t.branches, 100)
    ensures t.functions.total > 0 ==> r.functions == Percent(t.functions, 0)
    ensures t.lines.total > 0 ==> r.lines == Percent(t.lines, 0)
  {
    Percentages(Percent(t.statements, 0), Percent(t.branches, 100), Percent(t.functions, 0), Percent(t.lines, 0))
  }

  /** Every percentage of a tallied report lies in 0..100. */
  lemma PercentagesInRange(files: seq<FileCoverage>)
    ensures var r := ReportPercentages(SumTotals(files));
      && 0 <= r.statements <= 100 && 0 <= r.branches <= 100
      && 0 <= r.functions <= 100 && 0 <= r.lines <= 100
  {
    var t := SumTotals(files);
    SumTotalsSound(files);
    if t.statements.total > 0 { PercentBounds(t.statements, 0); }
    if t.branches.total > 0 { PercentBounds(t.branches, 100); }
    if t.functions.total > 0 { PercentBounds(t.functions, 0); }
    if t.lines.total > 0 { PercentBounds(t.lines, 0); }
  }

  // ---------------------------------------------------------------------------
  // Badges

  /** The badge for one metric: `generateBadgeUrl(label, `${p}%`, getCoverageColor(p))`. */
  function MetricBadge(caption: string, p: int): string {
    BadgeUrl(caption, IntToString(p) + "%", CoverageColor(p))
  }

  /** The badge label of a metric: `Coverage-` and the metric's name. */
  function Caption(name: string): string {
    "Coverage-" + name
  }

  /** The metrics of a report, in the order their badges are built. */
  const Metrics: seq<string> := ["Statements", "Branches", "Functions", "Lines"]

  /** The percentage of the `i`-th metric. */
  function MetricPercent(pc: Percentages, i: nat): int
    requires i < |Metrics|
  {
    if i == 0 then pc.statements
    else if i == 1 then pc.branches
    else if i == 2 then pc.functions
    else pc.lines
  }

  /** The four badge URLs: the `i`-th is labelled `Coverage-<metric>` and shows that metric's percentage. */
  function Badges(t: Totals): (r: seq<string>)
    ensures |r| == |Metrics|
    ensures forall i :: 0 <= i < |r| ==>
      r[i] == MetricBadge(Caption(Metrics[i]), MetricPercent(ReportPercentages(t), i))
  {
    var pc := ReportPercentages(t);
    seq(|Metrics|, i requires 0 <= i < |Metrics| => MetricBadge(Caption(Metrics[i]), MetricPercent(pc, i)))
  }

  predicate Letters(s: string) {
    forall i :: 0 <= i < |s| ==> 'A' <= s[i] <= 'Z' || 'a' <= s[i] <= 'z'
  }

  /** Letters need no escaping. */
  lemma LettersUnescaped(s: string)
    requires Letters(s)
    ensures NoSpace(s) && '-' !in s
  {
    assert '-' !in s by {
      forall i | 0 <= i < |s| ensures s[i] != '-' { }
    }
  }

  /** One occurrence of `c` between two texts without it becomes `rep`. */
  lemma ReplaceBetween(head: string, tail: string, c: char, rep: string)
    requires c !in head && c !in tail
    ensures ReplaceChar(head + [c] + tail, c, rep) == head + rep + tail
  {
    ReplaceCharIdentity(head, c, rep);
    ReplaceCharIdentity(tail, c, rep);
    assert head + [c] + tail == head + ([c] + tail);
    ReplaceCharAppend(head, [c] + tail, c, rep);
    ReplaceCharAppend([c], tail, c, rep);
    assert ReplaceChar([c], c, rep) == rep + ReplaceChar([], c, rep);
  }

  /** A label made of letters, one dash and letters is sent with the dash doubled. */
  lemma CleanMetricLabel(head: string, name: string)
    requires Letters(head) && Letters(name)
    ensures CleanLabel(head + "-" + name) == head + "--" + name
  {
    var s := head + "-" + name;
    LettersUnescaped(head);
    LettersUnescaped(name);
    assert NoSpace(s) by {
      forall i | 0 <= i < |s| ensures !IsSpace(s[i]) {
        if i > |head| { assert s[i] == name[i - |head| - 1]; }
        else if i < |head| { assert s[i] == head[i]; }
      }
    }
    CollapseIdentity(s);
    ReplaceBetween(head, name, '-', "--");
  }

  /** A metric badge for a percentage in range: the dash-doubled label, the digits, `%25` and the ladder colour. */
  lemma MetricBadgeShape(head: string, name: string, p: nat)
    requires Letters(head) && Letters(name)
    ensures MetricBadge(head + "-" + name, p) ==
      BadgePrefix + (head + "--" + name) + "-" + (NatToString(p) + "%25") + "-" + Ladder[Rung(p)] + BadgeSuffix
  {
    CleanMetricLabel(head, name);
    PercentMessage(p);
  }

  /** The badge of one metric, as the README receives it: dash-doubled label, the percentage in 0..100, `%25`, the ladder colour. */
  predicate WellFormedBadge(url: string, name: string, p: int) {
    && 0 <= p <= 100
    && url == BadgePrefix + ("Coverage" + "--" + name) + "-" + (NatToString(p) + "%25") + "-" + Ladder[Rung(p)] + BadgeSuffix
  }

  /** One metric of a tallied report gives a well-formed badge. */
  lemma MetricOfReport(name: string, p: int)
    requires Letters(name) && 0 <= p <= 100
    ensures WellFormedBadge(MetricBadge(Caption(name), p), name, p)
  {
    assert Letters("Coverage");
    assert Caption(name) == "Coverage" + "-" + name;
    MetricBadgeShape("Coverage", name, p);
  }

  /** The four labels are `Coverage-Statements`, `Coverage-Branches`, `Coverage-Functions` and `Coverage-Lines`. */
  lemma BadgeLabels()
    ensures |Metrics| == 4
    ensures Caption(Metrics[0]) == "Coverage-Statements" && Caption(Metrics[1]) == "Coverage-Branches"
    ensures Caption(Metrics[2]) == "Coverage-Functions" && Caption(Metrics[3]) == "Coverage-Lines"
  {
  }

  lemma MetricNamesAreLetters()
    ensures forall i :: 0 <= i < |Metrics| ==> Letters(Metrics[i])
  {
  }

  /**
   * From a report to its badges: the tally's four percentages lie in 0..100,
   * and each badge carries its metric's label, percentage and ladder colour.
   */
  lemma TalliedBadges(files: seq<FileCoverage>)
    ensures var t := SumTotals(files); var r := Badges(t);
      forall i :: 0 <= i < |r| ==> WellFormedBadge(r[i], Metrics[i], MetricPercent(ReportPercentages(t), i))
  {
    var t := SumTotals(files);
    var r := Badges(t);
    var pc := ReportPercentages(t);
    PercentagesInRange(files);
    MetricNamesAreLetters();
    forall i | 0 <= i < |r| ensures WellFormedBadge(r[i], Metrics[i], MetricPercent(pc, i)) {
      MetricOfReport(Metrics[i], MetricPercent(pc, i));
    }
  }
}
