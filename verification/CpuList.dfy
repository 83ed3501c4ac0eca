/** CPU lists such as "0-3,8-10": the printer and the parser are inverse. */
module CpuList {
  import opened Common
  import opened Seqs

  const CPU_RANGE: nat := U64_MAX + 1

  // ------------------------------------------------------------ text

  predicate IsDigit(c: char) { '0' <= c <= '9' }

  function Digit(d: nat): char
    requires d < 10
  {
    '0' + d as char
  }

  function Decimal(n: nat): (s: string)
    ensures |s| > 0
  {
    if n < 10 then [Digit(n)] else Decimal(n / 10) + [Digit(n % 10)]
  }

  function ParseDigits(s: string): Option<nat> {
    if s == [] then Some(0)
    else
      var front := ParseDigits(s[..|s|-1]);
      var c := s[|s|-1];
      if front.None? || !IsDigit(c) then None
      else
        var v := front.value * 10 + (c as int - '0' as int);
        if v > U64_MAX then None else Some(v)
  }

  /** An unsigned number that fits 64 bits, with an optional plus sign. */
  function ParseNumber(s: string): Option<nat> {
    if s == [] then None
    else if s[0] == '+' && |s| > 1 then ParseDigits(s[1..])
    else ParseDigits(s)
  }

  lemma {:induction false} DecimalDigits(n: nat)
    ensures forall c | c in Decimal(n) :: IsDigit(c)
  {
    if n >= 10 { DecimalDigits(n / 10); }
  }

  lemma {:induction false} ParseDecimal(n: nat)
    requires n <= U64_MAX
    ensures ParseDigits(Decimal(n)) == Some(n)
  {
    var s := Decimal(n);
    if n >= 10 {
      ParseDecimal(n / 10);
      assert s[..|s|-1] == Decimal(n / 10);
    } else {
      assert s[..0] == [];
    }
  }

  lemma ParsePrinted(n: nat)
    requires n <= U64_MAX
    ensures ParseNumber(Decimal(n)) == Some(n) && '-' !in Decimal(n) && ',' !in Decimal(n)
  {
    DecimalDigits(n);
    ParseDecimal(n);
    assert Decimal(n)[0] in Decimal(n);
  }

  /** The pieces between separators; one more piece than separators. */
  function Split(s: string, sep: char): (parts: seq<string>)
    ensures |parts| > 0
  {
    if s == [] then [[]]
    else
      var front := Split(s[..|s|-1], sep);
      var c := s[|s|-1];
      if c == sep then front + [[]] else front[..|front|-1] + [front[|front|-1] + [c]]
  }

  function Join(parts: seq<string>, sep: char): string {
    if parts == [] then []
    else if |parts| == 1 then parts[0]
    else Join(parts[..|parts|-1], sep) + [sep] + parts[|parts|-1]
  }

  lemma {:induction false} SplitAppend(s: string, piece: string, sep: char)
    requires sep !in piece
    ensures var front := Split(s, sep); Split(s + piece, sep) == front[..|front|-1] + [front[|front|-1] + piece]
  {
    var front := Split(s, sep);
    var last := front[|front|-1];
    if piece == [] {
      assert s + piece == s && last + piece == last;
      FrontLast(front);
    } else {
      var p, c := piece[..|piece|-1], piece[|piece|-1];
      FrontOfAppend(s, piece);
      SplitAppend(s, p, sep);
      TakeFront(front[..|front|-1], [last + p]);
      FrontLast(piece);
      Associative(last, p, [c]);
    }
  }

  lemma SplitNext(s: string, piece: string, sep: char)
    requires sep !in piece
    ensures Split(s + [sep] + piece, sep) == Split(s, sep) + [piece]
  {
    var t := s + [sep];
    assert t[..|t|-1] == s;
    SplitAppend(t, piece, sep);
    assert [] + piece == piece;
    assert Split(t, sep) == Split(s, sep) + [[]];
  }

  /** Splitting undoes joining when no piece contains the separator. */
  lemma {:induction false} SplitJoin(parts: seq<string>, sep: char)
    requires |parts| > 0 && forall p | p in parts :: sep !in p
    ensures Split(Join(parts, sep), sep) == parts
  {
    if |parts| == 1 {
      SplitAppend([], parts[0], sep);
      assert [] + parts[0] == parts[0];
    } else {
      var front, last := parts[..|parts|-1], parts[|parts|-1];
      SplitJoin(front, sep);
      SplitNext(Join(front, sep), last, sep);
      FrontLast(parts);
    }
  }

  // ------------------------------------------------------------ runs of consecutive ids

  datatype Run = Run(first: nat, last: nat)

  function Next(cpu: nat): nat { (cpu + 1) % CPU_RANGE }

  /** Maximal runs of ids that follow each other in the list; the successor wraps at the width of the type. */
  function Runs(cpus: seq<nat>): (runs: seq<Run>)
    ensures cpus != [] ==> |runs| > 0
  {
    if cpus == [] then []
    else
      var front := Runs(cpus[..|cpus|-1]);
      var cpu := cpus[|cpus|-1];
      if front != [] && cpu == Next(front[|front|-1].last) then front[..|front|-1] + [Run(front[|front|-1].first, cpu)]
      else front + [Run(cpu, cpu)]
  }

  function Print(r: Run): string {
    if r.first == r.last then Decimal(r.first) else Decimal(r.first) + "-" + Decimal(r.last)
  }

  function PrintAll(runs: seq<Run>): (parts: seq<string>)
    ensures |parts| == |runs| && (runs != [] ==> |parts[0]| > 0)
  {
    if runs == [] then [] else PrintAll(runs[..|runs|-1]) + [Print(runs[|runs|-1])]
  }

  function Formatted(cpus: seq<nat>): string { Join(PrintAll(Runs(cpus)), ',') }

  method FormatCpuList(cpus: seq<nat>) returns (text: string)
    ensures text == Formatted(cpus)
  {
    if cpus == [] { return ""; }
    var parts: seq<string> := [];
    ghost var done: seq<Run> := [];
    var start, prev := cpus[0], cpus[0];
    assert cpus[..1] == [cpus[0]] && [cpus[0]][..0] == [];
    for i := 1 to |cpus|
      invariant parts == PrintAll(done) && Runs(cpus[..i]) == done + [Run(start, prev)]
    {
      assert cpus[..i+1][..i] == cpus[..i];
      ghost var runs := done + [Run(start, prev)];
      assert runs[..|runs|-1] == done;
      if cpus[i] == Next(prev) {
        prev := cpus[i];
      } else {
        TakeFront(done, [Run(start, prev)]);
        parts := parts + [Print(Run(start, prev))];
        done := done + [Run(start, prev)];
        start, prev := cpus[i], cpus[i];
      }
    }
    assert cpus[..|cpus|] == cpus;
    TakeFront(done, [Run(start, prev)]);
    parts := parts + [Print(Run(start, prev))];
    text := JoinAll(parts);
  }

  method JoinAll(parts: seq<string>) returns (text: string)
    requires |parts| > 0
    ensures text == Join(parts, ',')
  {
    text := parts[0];
    assert parts[..1] == [parts[0]];
    for i := 1 to |parts|
      invariant text == Join(parts[..i], ',')
    {
      assert parts[..i+1][..i] == parts[..i];
      text := text + [','] + parts[i];
    }
    assert parts[..|parts|] == parts;
  }

  // ------------------------------------------------------------ parsing

  function ParsePart(part: string): Option<Run> {
    if '-' in part then
      var range := Split(part, '-');
      if |range| != 2 then None
      else
        var first, last := ParseNumber(range[0]), ParseNumber(range[1]);
        if first.None? || last.None? then None else Some(Run(first.value, last.value))
    else
      var cpu := ParseNumber(part);
      if cpu.None? then None else Some(Run(cpu.value, cpu.value))
  }

  function ParseParts(parts: seq<string>): Option<seq<Run>> {
    if parts == [] then Some([])
    else
      var front, last := ParseParts(parts[..|parts|-1]), ParsePart(parts[|parts|-1]);
      if front.None? || last.None? then None else Some(front.value + [last.value])
  }

  predicate InRun(r: Run, cpu: nat) { r.first <= cpu <= r.last }

  ghost predicate InRuns(runs: seq<Run>, cpu: nat) { exists i | 0 <= i < |runs| :: InRun(runs[i], cpu) }

  function Below(): (nat, nat) -> bool { (a: nat, b: nat) => a < b }

  /** Sorted and without repetition. */
  function Dedup(xs: seq<nat>): seq<nat> {
    if |xs| <= 1 then xs
    else if xs[|xs|-1] == xs[|xs|-2] then Dedup(xs[..|xs|-1])
    else Dedup(xs[..|xs|-1]) + [xs[|xs|-1]]
  }

  function Normal(cpus: seq<nat>): seq<nat> { Dedup(SortBy(cpus, Below())) }

  lemma {:induction false} DedupExact(xs: seq<nat>)
    requires Sorted(xs, Below())
    ensures Ascending(Dedup(xs), Below()) && forall x :: x in Dedup(xs) <==> x in xs
    ensures xs != [] ==> Dedup(xs) != [] && Dedup(xs)[|Dedup(xs)|-1] == xs[|xs|-1]
  {
    if |xs| > 1 {
      var front, last := xs[..|xs|-1], xs[|xs|-1];
      DedupExact(front);
      assert xs == front + [last];
      assert !Below()(last, front[|front|-1]);
    }
  }

  lemma NormalExact(cpus: seq<nat>)
    ensures Ascending(Normal(cpus), Below()) && forall x :: x in Normal(cpus) <==> x in cpus
    ensures forall i, j | 0 <= i < j < |Normal(cpus)| :: Normal(cpus)[i] < Normal(cpus)[j]
  {
    SortSorted(cpus, Below());
    DedupExact(SortBy(cpus, Below()));
    forall x ensures x in SortBy(cpus, Below()) <==> x in cpus { InSorted(cpus, Below(), x); }
  }

  /** Two lists of the same ids have the same normal form. */
  lemma NormalUnique(a: seq<nat>, b: seq<nat>)
    requires forall x :: x in a <==> x in b
    ensures Normal(a) == Normal(b)
  {
    NormalExact(a);
    NormalExact(b);
    AscendingUnique(Normal(a), Normal(b), Below());
  }

  /** The ids of one range; none when it is upside down. */
  function Expanded(first: nat, last: nat): seq<nat> {
    if first > last then [] else if first == last then [first] else Expanded(first, last - 1) + [last]
  }

  function ExpandAll(runs: seq<Run>): seq<nat> {
    if runs == [] then [] else ExpandAll(runs[..|runs|-1]) + Expanded(runs[|runs|-1].first, runs[|runs|-1].last)
  }

  function Parsed(text: string): Option<seq<nat>> {
    if text == "" then Some([])
    else
      var runs := ParseParts(Split(text, ','));
      if runs.None? then None else Some(Normal(ExpandAll(runs.value)))
  }

  method ParseCpuList(text: string) returns (r: Option<seq<nat>>)
    ensures r == Parsed(text)
  {
    if text == "" { return Some([]); }
    var parts := Split(text, ',');
    var cpus: seq<nat> := [];
    ghost var runs: seq<Run> := [];
    for i := 0 to |parts|
      invariant ParseParts(parts[..i]) == Some(runs) && cpus == ExpandAll(runs)
    {
      assert parts[..i+1][..i] == parts[..i];
      var run := ParsePart(parts[i]);
      if run.None? {
        FailedPart(parts, i);
        return None;
      }
      var more := ExpandRun(run.value);
      assert (runs + [run.value])[..|runs|] == runs;
      cpus, runs := cpus + more, runs + [run.value];
    }
    assert parts[..|parts|] == parts;
    r := Some(Normal(cpus));
  }

  method ExpandRun(run: Run) returns (cpus: seq<nat>)
    ensures cpus == Expanded(run.first, run.last)
  {
    cpus := [];
    var cpu := run.first;
    while cpu <= run.last
      invariant run.first <= cpu && (run.first > run.last ==> cpu == run.first)
                && (run.first <= run.last ==> cpu <= run.last + 1)
      invariant cpus == if cpu == run.first then [] else Expanded(run.first, cpu - 1)
    {
      cpus := cpus + [cpu];
      cpu := cpu + 1;
    }
  }

  lemma {:induction false} FailedPart(parts: seq<string>, i: nat)
    requires i < |parts| && ParsePart(parts[i]).None?
    ensures ParseParts(parts).None?
  {
    if i < |parts| - 1 { FailedPart(parts[..|parts|-1], i); }
  }

  lemma {:induction false} InExpanded(first: nat, last: nat, x: nat)
    ensures x in Expanded(first, last) <==> first <= x <= last
  {
    if first < last { InExpanded(first, last - 1, x); }
  }

  lemma {:induction false} InExpandAll(runs: seq<Run>, x: nat)
    ensures x in ExpandAll(runs) <==> InRuns(runs, x)
  {
    if runs != [] {
      var n := |runs| - 1;
      InExpandAll(runs[..n], x);
      InExpanded(runs[n].first, runs[n].last, x);
      InRunsAppend(runs[..n], runs[n]);
      assert runs == runs[..n] + [runs[n]];
    }
  }

  lemma InRunsAppend(runs: seq<Run>, r: Run)
    ensures forall x :: InRuns(runs + [r], x) <==> InRuns(runs, x) || InRun(r, x)
  {
    forall x ensures InRuns(runs + [r], x) <==> InRuns(runs, x) || InRun(r, x) {
      if InRuns(runs, x) {
        var i :| 0 <= i < |runs| && InRun(runs[i], x);
        assert InRun((runs + [r])[i], x);
      }
      assert (runs + [r])[|runs|] == r;
    }
  }

  // ------------------------------------------------------------ the round trip

  ghost predicate CpuIds(cpus: seq<nat>) { forall i | 0 <= i < |cpus| :: cpus[i] <= U64_MAX }

  /** Nowhere does 0 directly follow the largest id. */
  ghost predicate NoWrap(cpus: seq<nat>) { forall i | 0 <= i < |cpus| - 1 :: !(cpus[i] == U64_MAX && cpus[i+1] == 0) }

  lemma {:induction false} RunsEnd(cpus: seq<nat>)
    requires cpus != [] && CpuIds(cpus)
    ensures var runs := Runs(cpus); runs[|runs|-1].last == cpus[|cpus|-1]
    ensures forall i | 0 <= i < |Runs(cpus)| :: Runs(cpus)[i].first <= U64_MAX && Runs(cpus)[i].last <= U64_MAX
  {
    if |cpus| > 1 { RunsEnd(cpus[..|cpus|-1]); } else { assert cpus[..0] == []; }
  }

  ghost predicate Upright(runs: seq<Run>) { forall i | 0 <= i < |runs| :: runs[i].first <= runs[i].last }

  ghost predicate Covers(runs: seq<Run>, cpus: seq<nat>) { Upright(runs) && forall x :: InRuns(runs, x) <==> x in cpus }

  lemma CoverNew(runs: seq<Run>, cpus: seq<nat>, cpu: nat)
    requires Covers(runs, cpus)
    ensures Covers(runs + [Run(cpu, cpu)], cpus + [cpu])
  {
    InRunsAppend(runs, Run(cpu, cpu));
  }

  lemma CoverLonger(runs: seq<Run>, r: Run, cpus: seq<nat>)
    requires Covers(runs + [r], cpus)
    ensures Covers(runs + [Run(r.first, r.last + 1)], cpus + [r.last + 1])
  {
    InRunsAppend(runs, r);
    InRunsAppend(runs, Run(r.first, r.last + 1));
    assert (runs + [r])[|runs|] == r;
    forall i | 0 <= i < |runs| ensures runs[i].first <= runs[i].last { assert (runs + [r])[i] == runs[i]; }
  }

  lemma CoverNext(runs: seq<Run>, cpus: seq<nat>)
    requires runs != [] && Covers(runs, cpus)
    ensures var r := runs[|runs|-1];
            Covers(runs[..|runs|-1] + [Run(r.first, r.last + 1)], cpus + [r.last + 1])
  {
    FrontLast(runs);
    CoverLonger(runs[..|runs|-1], runs[|runs|-1], cpus);
  }

  /** Without a wrap the successor of an id is one more. */
  lemma NextIsNext(cpus: seq<nat>)
    requires CpuIds(cpus) && NoWrap(cpus) && |cpus| > 1
    ensures var runs := Runs(cpus[..|cpus|-1]); var last := runs[|runs|-1].last;
            cpus[|cpus|-1] == Next(last) ==> cpus[|cpus|-1] == last + 1
  {
    RunsEnd(cpus[..|cpus|-1]);
    var last := cpus[|cpus|-2];
    assert !(last == U64_MAX && cpus[|cpus|-1] == 0);
  }

  /** Without a wrap the runs cover exactly the listed ids. */
  lemma {:induction false} RunsCover(cpus: seq<nat>)
    requires CpuIds(cpus) && NoWrap(cpus)
    ensures Covers(Runs(cpus), cpus)
  {
    if cpus != [] {
      var front, cpu := cpus[..|cpus|-1], cpus[|cpus|-1];
      FrontLast(cpus);
      RunsCover(front);
      var runs := Runs(front);
      RunsNext(front, cpu);
      if front != [] && cpu == Next(runs[|runs|-1].last) {
        NextIsNext(cpus);
        CoverNext(runs, front);
      } else {
        CoverNew(runs, front, cpu);
      }
    }
  }

  lemma RunsNext(cpus: seq<nat>, cpu: nat)
    ensures var runs := Runs(cpus);
            Runs(cpus + [cpu]) ==
            if cpus != [] && cpu == Next(runs[|runs|-1].last) then runs[..|runs|-1] + [Run(runs[|runs|-1].first, cpu)]
            else runs + [Run(cpu, cpu)]
  {
    assert (cpus + [cpu])[..|cpus|] == cpus;
  }

  /** A run that ends with the largest id is the last one, or something else than 0 followed. */
  lemma {:induction false} RunEndsBeforeOther(cpus: seq<nat>, i: nat)
    requires CpuIds(cpus) && i < |Runs(cpus)| - 1 && Runs(cpus)[i].last == U64_MAX
    ensures exists m: nat | m < |cpus| - 1 :: cpus[m] == U64_MAX && cpus[m+1] != 0
  {
    var front, cpu := cpus[..|cpus|-1], cpus[|cpus|-1];
    var runs := Runs(front);
    RunsEnd(front);
    if i < |runs| - 1 {
      RunEndsBeforeOther(front, i);
      var m: nat :| m < |front| - 1 && front[m] == U64_MAX && front[m+1] != 0;
      assert cpus[m] == U64_MAX && cpus[m+1] != 0;
    } else {
      assert cpus[|cpus|-2] == U64_MAX && cpus[|cpus|-1] != 0;
    }
  }

  /** When 0 follows the largest id, no run contains the largest id. */
  lemma WrapDropsLargest(cpus: seq<nat>, k: nat)
    requires CpuIds(cpus) && NoRepeats(cpus) && k < |cpus| - 1 && cpus[k] == U64_MAX && cpus[k+1] == 0
    ensures !InRuns(Runs(cpus), U64_MAX)
  {
    RunsEnd(cpus);
    var runs := Runs(cpus);
    assert forall m: nat | m < |cpus| && cpus[m] == U64_MAX :: m == k;
    forall i | 0 <= i < |runs| ensures !InRun(runs[i], U64_MAX) {
      if i < |runs| - 1 && runs[i].last == U64_MAX { RunEndsBeforeOther(cpus, i); }
    }
  }

  lemma ParsePrint(r: Run)
    requires r.first <= U64_MAX && r.last <= U64_MAX
    ensures ParsePart(Print(r)) == Some(r) && ',' !in Print(r)
  {
    ParsePrinted(r.first);
    ParsePrinted(r.last);
    if r.first != r.last {
      var parts := [Decimal(r.first), Decimal(r.last)];
      assert parts[..1] == [Decimal(r.first)];
      assert Join(parts, '-') == Print(r);
      SplitJoin(parts, '-');
    }
  }

  lemma {:induction false} ParsePrintAll(runs: seq<Run>)
    requires forall i | 0 <= i < |runs| :: runs[i].first <= U64_MAX && runs[i].last <= U64_MAX
    ensures ParseParts(PrintAll(runs)) == Some(runs) && forall p | p in PrintAll(runs) :: ',' !in p
  {
    if runs != [] {
      var n := |runs| - 1;
      ParsePrintAll(runs[..n]);
      ParsePrint(runs[n]);
      FrontLast(runs);
      TakeFront(PrintAll(runs[..n]), [Print(runs[n])]);
    }
  }

  lemma {:induction false} JoinNonEmpty(parts: seq<string>, sep: char)
    requires |parts| > 0 && |parts[0]| > 0
    ensures Join(parts, sep) != []
  {
  }

  /** What is parsed back are the ids of the printed runs. */
  lemma ParsedRuns(cpus: seq<nat>)
    requires CpuIds(cpus)
    ensures Parsed(Formatted(cpus)) == Some(Normal(ExpandAll(Runs(cpus))))
  {
    if cpus != [] {
      RunsEnd(cpus);
      var runs := Runs(cpus);
      ParsePrintAll(runs);
      SplitJoin(PrintAll(runs), ',');
      JoinNonEmpty(PrintAll(runs), ',');
    }
  }

  /** Parsing the printed list gives its ids, sorted and without repetition. */
  lemma RoundTrip(cpus: seq<nat>)
    requires CpuIds(cpus) && NoWrap(cpus)
    ensures Parsed(Formatted(cpus)) == Some(Normal(cpus))
  {
    ParsedRuns(cpus);
    RunsCover(cpus);
    forall x ensures x in ExpandAll(Runs(cpus)) <==> x in cpus { InExpandAll(Runs(cpus), x); }
    NormalUnique(ExpandAll(Runs(cpus)), cpus);
  }

  /** For lists without repetition that is exactly when it holds. */
  lemma RoundTripDistinct(cpus: seq<nat>)
    requires CpuIds(cpus) && NoRepeats(cpus)
    ensures Parsed(Formatted(cpus)) == Some(Normal(cpus)) <==> NoWrap(cpus)
  {
    if NoWrap(cpus) {
      RoundTrip(cpus);
    } else {
      var k :| 0 <= k < |cpus| - 1 && cpus[k] == U64_MAX && cpus[k+1] == 0;
      WrapDropsLargest(cpus, k);
      ParsedRuns(cpus);
      InExpandAll(Runs(cpus), U64_MAX);
      NormalExact(ExpandAll(Runs(cpus)));
      NormalExact(cpus);
      assert cpus[k] in cpus;
    }
  }

  // ------------------------------------------------------------ lists with repetitions

  /** The list cut where an id is not the successor of the one before. */
  function Spans(cpus: seq<nat>): (spans: seq<seq<nat>>)
    ensures cpus != [] ==> |spans| > 0
    ensures forall i | 0 <= i < |spans| :: spans[i] != []
  {
    if cpus == [] then []
    else
      var front := Spans(cpus[..|cpus|-1]);
      var cpu := cpus[|cpus|-1];
      if front != [] && cpu == Next(Last(front[|front|-1])) then front[..|front|-1] + [front[|front|-1] + [cpu]]
      else front + [[cpu]]
  }

  function Last(xs: seq<nat>): nat
    requires xs != []
  {
    xs[|xs|-1]
  }

  ghost predicate Consecutive(span: seq<nat>) { forall k | 0 <= k < |span| - 1 :: span[k+1] == Next(span[k]) }

  /** 0 follows the largest id somewhere in the span. */
  ghost predicate Wraps(span: seq<nat>) { !NoWrap(span) }

  /** A span of consecutive ids, printed as the run from its first to its last id. */
  ghost predicate IsSpan(span: seq<nat>, r: Run, longest: nat) {
    && 0 < |span| <= longest && CpuIds(span) && Consecutive(span) && r == Run(span[0], Last(span))
  }

  ghost predicate AreSpans(spans: seq<seq<nat>>, runs: seq<Run>, longest: nat) {
    |spans| == |runs| && forall i | 0 <= i < |spans| :: IsSpan(spans[i], runs[i], longest)
  }

  lemma SpanGrows(span: seq<nat>, r: Run, longest: nat, cpu: nat)
    requires IsSpan(span, r, longest) && cpu == Next(Last(span)) && cpu <= U64_MAX
    ensures IsSpan(span + [cpu], Run(r.first, cpu), longest + 1)
  {
    var more := span + [cpu];
    forall k | 0 <= k < |more| - 1
      ensures more[k+1] == Next(more[k])
    {
      if k < |span| - 1 { assert span[k+1] == Next(span[k]); }
    }
  }

  lemma SpansAppend(spans: seq<seq<nat>>, runs: seq<Run>, span: seq<nat>, r: Run, longest: nat)
    requires AreSpans(spans, runs, longest) && IsSpan(span, r, longest + 1)
    ensures AreSpans(spans + [span], runs + [r], longest + 1)
  {
    forall i | 0 <= i < |spans| + 1 ensures IsSpan((spans + [span])[i], (runs + [r])[i], longest + 1) {
      if i < |spans| { assert IsSpan(spans[i], runs[i], longest); }
    }
  }

  /** The printed runs are the spans. */
  lemma {:induction false} SpansAreRuns(cpus: seq<nat>)
    requires CpuIds(cpus)
    ensures AreSpans(Spans(cpus), Runs(cpus), |cpus|)
  {
    if cpus != [] {
      var n := |cpus| - 1;
      var front, cpu := cpus[..n], cpus[n];
      SpansAreRuns(front);
      var spans, runs := Spans(front), Runs(front);
      if spans != [] && cpu == Next(Last(spans[|spans|-1])) {
        var m := |spans| - 1;
        SpanGrows(spans[m], runs[m], n, cpu);
        SpansAppend(spans[..m], runs[..m], spans[m] + [cpu], Run(runs[m].first, cpu), n);
      } else {
        SpansAppend(spans, runs, [cpu], Run(cpu, cpu), n);
      }
    }
  }

  function Concat(spans: seq<seq<nat>>): seq<nat> {
    if spans == [] then [] else Concat(spans[..|spans|-1]) + spans[|spans|-1]
  }

  /** `b` does not begin with the successor of the last id of `a`. */
  predicate BreaksOff(a: seq<nat>, b: seq<nat>) { a != [] && b != [] && b[0] != Next(Last(a)) }

  /** No span could be longer. */
  ghost predicate Maximal(spans: seq<seq<nat>>) {
    forall i, j | 0 <= i < j < |spans| && j == i + 1 :: BreaksOff(spans[i], spans[j])
  }

  /** The spans cut the list into maximal pieces. */
  lemma {:induction false} SpansMaximal(cpus: seq<nat>)
    ensures Concat(Spans(cpus)) == cpus && Maximal(Spans(cpus))
  {
    if cpus != [] {
      var n := |cpus| - 1;
      SpansMaximal(cpus[..n]);
      FrontLast(cpus);
      var spans := Spans(cpus[..n]);
      if spans != [] && cpus[n] == Next(Last(spans[|spans|-1])) {
        LongerMaximal(spans, cpus[n]);
      } else {
        NewMaximal(spans, cpus[n]);
      }
    }
  }

  lemma LongerMaximal(spans: seq<seq<nat>>, cpu: nat)
    requires Maximal(spans) && spans != [] && spans[|spans|-1] != []
    ensures var m := |spans| - 1; var more := spans[..m] + [spans[m] + [cpu]];
            Maximal(more) && Concat(more) == Concat(spans) + [cpu]
  {
    var m := |spans| - 1;
    var more := spans[..m] + [spans[m] + [cpu]];
    assert more[..m] == spans[..m];
    Associative(Concat(spans[..m]), spans[m], [cpu]);
    forall i, j | 0 <= i < j < |more| && j == i + 1 ensures BreaksOff(more[i], more[j]) {
      assert BreaksOff(spans[i], spans[j]);
    }
  }

  lemma NewMaximal(spans: seq<seq<nat>>, cpu: nat)
    requires Maximal(spans) && (spans != [] ==> spans[|spans|-1] != [] && cpu != Next(Last(spans[|spans|-1])))
    ensures Maximal(spans + [[cpu]]) && Concat(spans + [[cpu]]) == Concat(spans) + [cpu]
  {
    var more := spans + [[cpu]];
    assert more[..|spans|] == spans;
    forall i, j | 0 <= i < j < |more| && j == i + 1 ensures BreaksOff(more[i], more[j]) {
      if j < |spans| { assert BreaksOff(spans[i], spans[j]); }
    }
  }

  ghost predicate InSpans(spans: seq<seq<nat>>, x: nat) { exists i | 0 <= i < |spans| :: x in spans[i] }

  lemma InSpansAppend(spans: seq<seq<nat>>, span: seq<nat>, x: nat)
    ensures InSpans(spans + [span], x) <==> InSpans(spans, x) || x in span
  {
    if InSpans(spans, x) {
      var i :| 0 <= i < |spans| && x in spans[i];
      assert x in (spans + [span])[i];
    }
    assert (spans + [span])[|spans|] == span;
  }

  /** The spans hold exactly the listed ids. */
  lemma {:induction false} SpansHold(cpus: seq<nat>, x: nat)
    ensures InSpans(Spans(cpus), x) <==> x in cpus
  {
    if cpus != [] {
      var n := |cpus| - 1;
      var front, cpu := cpus[..n], cpus[n];
      SpansHold(front, x);
      FrontLast(cpus);
      var spans := Spans(front);
      if spans != [] && cpu == Next(Last(spans[|spans|-1])) {
        var last := spans[|spans|-1];
        FrontLast(spans);
        InSpansAppend(spans[..|spans|-1], last, x);
        InSpansAppend(spans[..|spans|-1], last + [cpu], x);
      } else {
        InSpansAppend(spans, [cpu], x);
      }
    }
  }

  lemma {:induction false} StraightSpan(span: seq<nat>, k: nat)
    requires CpuIds(span) && Consecutive(span) && NoWrap(span) && k < |span|
    ensures span[k] == span[0] + k
  {
    if k > 0 {
      StraightSpan(span, k - 1);
      var id, next := span[k-1], span[k-1+1];
      assert next == Next(id) && !(id == U64_MAX && next == 0);
    }
  }

  /** Position `k` of a span is `k` steps on, some number of times around. */
  lemma {:induction false} RoundSpan(span: seq<nat>, k: nat) returns (laps: nat)
    requires CpuIds(span) && Consecutive(span) && k < |span|
    ensures span[0] + k == span[k] + CPU_RANGE * laps
  {
    laps := 0;
    if k > 0 {
      laps := RoundSpan(span, k - 1);
      assert span[k-1+1] == Next(span[k-1]);
      if span[k-1] == U64_MAX { laps := laps + 1; }
    }
  }

  /** A span that does not wrap is the run it is printed as. */
  lemma StraightSpanRun(span: seq<nat>, r: Run, longest: nat, x: nat)
    requires IsSpan(span, r, longest) && NoWrap(span)
    ensures x in span <==> InRun(r, x)
  {
    StraightSpan(span, |span| - 1);
    if x in span {
      var k :| 0 <= k < |span| && span[k] == x;
      StraightSpan(span, k);
    }
    if InRun(r, x) {
      StraightSpan(span, x - span[0]);
      assert span[x - span[0]] == x;
    }
  }

  /** A span that wraps is printed upside down, unless it lists every id and more. */
  lemma WrappedSpanRun(span: seq<nat>, r: Run, x: nat)
    requires IsSpan(span, r, CPU_RANGE) && Wraps(span)
    ensures !InRun(r, x)
  {
    var k :| 0 <= k < |span| - 1 && span[k] == U64_MAX && span[k+1] == 0;
    var before := RoundSpan(span, k);
    var after := RoundSpan(span, |span| - 1);
    OneLap(span[0], k, |span| - 1, span[|span|-1], before, after);
  }

  /** Fewer steps than there are ids, and the largest one passed on the way: the last id is below the first. */
  lemma OneLap(first: nat, k: nat, n: nat, last: nat, before: nat, after: nat)
    requires k < n < CPU_RANGE && first <= U64_MAX && last <= U64_MAX
    requires first + k == U64_MAX + CPU_RANGE * before && first + n == last + CPU_RANGE * after
    ensures last < first
  {
    assert CPU_RANGE <= first + n < 2 * CPU_RANGE;
  }

  /** The id is listed in a span that does not wrap. */
  ghost predicate ListedStraight(cpus: seq<nat>, x: nat) {
    exists i | 0 <= i < |Spans(cpus)| :: x in Spans(cpus)[i] && !Wraps(Spans(cpus)[i])
  }

  lemma PrintedExactly(cpus: seq<nat>, x: nat)
    requires CpuIds(cpus) && |cpus| <= CPU_RANGE
    ensures InRuns(Runs(cpus), x) <==> ListedStraight(cpus, x)
  {
    var spans, runs := Spans(cpus), Runs(cpus);
    SpansAreRuns(cpus);
    forall i | 0 <= i < |spans| ensures InRun(runs[i], x) <==> x in spans[i] && !Wraps(spans[i]) {
      assert IsSpan(spans[i], runs[i], |cpus|);
      if Wraps(spans[i]) {
        WrappedSpanRun(spans[i], runs[i], x);
      } else {
        StraightSpanRun(spans[i], runs[i], |cpus|, x);
      }
    }
  }

  lemma ParsedExactly(cpus: seq<nat>, x: nat)
    requires CpuIds(cpus) && |cpus| <= CPU_RANGE
    ensures x in ExpandAll(Runs(cpus)) <==> ListedStraight(cpus, x)
    ensures ListedStraight(cpus, x) ==> x in cpus
  {
    InExpandAll(Runs(cpus), x);
    PrintedExactly(cpus, x);
    SpansHold(cpus, x);
  }

  lemma SameNormalExactly(a: seq<nat>, b: seq<nat>)
    ensures Normal(a) == Normal(b) <==> forall x :: x in a <==> x in b
  {
    NormalExact(a);
    NormalExact(b);
    if forall x :: x in a <==> x in b { NormalUnique(a, b); }
  }

  /**
   For every list there can be, printing loses nothing exactly when every id is listed in a span that does not wrap.
   */
  lemma RoundTripExactly(cpus: seq<nat>)
    requires CpuIds(cpus) && |cpus| <= CPU_RANGE
    ensures Parsed(Formatted(cpus)) == Some(Normal(cpus)) <==> forall x | x in cpus :: ListedStraight(cpus, x)
  {
    ParsedRuns(cpus);
    SameNormalExactly(ExpandAll(Runs(cpus)), cpus);
    forall x ensures (x in ExpandAll(Runs(cpus)) <==> x in cpus) <==> (x in cpus ==> ListedStraight(cpus, x)) {
      ParsedExactly(cpus, x);
    }
  }

  /** On strictly increasing lists the two are inverse. */
  lemma RoundTripSorted(cpus: seq<nat>)
    requires CpuIds(cpus) && Ascending(cpus, Below())
    ensures Parsed(Formatted(cpus)) == Some(cpus)
  {
    forall i | 0 <= i < |cpus| - 1
      ensures !(cpus[i] == U64_MAX && cpus[i+1] == 0)
    {
      assert Below()(cpus[i], cpus[i+1]);
    }
    RoundTrip(cpus);
    NormalExact(cpus);
    AscendingUnique(Normal(cpus), cpus, Below());
  }

  /** The largest id followed by 0 prints as one run that parses to nothing. */
  lemma WrapLoses()
    ensures Parsed(Formatted([U64_MAX, 0])) == Some([]) && Normal([U64_MAX, 0]) != []
  {
    var cpus := [U64_MAX, 0];
    ParsedRuns(cpus);
    WrappedRun();
    NormalExact(cpus);
    assert 0 in cpus;
  }

  lemma WrappedRun()
    ensures Runs([U64_MAX, 0]) == [Run(U64_MAX, 0)] && ExpandAll([Run(U64_MAX, 0)]) == []
  {
    var cpus, runs := [U64_MAX, 0], [Run(U64_MAX, 0)];
    assert cpus[..1] == [U64_MAX] && [U64_MAX][..0] == [] && runs[..0] == [];
    assert Runs([U64_MAX]) == [Run(U64_MAX, U64_MAX)];
  }
}
