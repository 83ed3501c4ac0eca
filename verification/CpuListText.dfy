/** The text of CPU lists, character by character: which texts the parser accepts and what they mean. */
module CpuListText {
  import opened Common
  import opened CpuList

  // ------------------------------------------------------------ numbers

  ghost predicate AllDigits(s: string) { forall i | 0 <= i < |s| :: s[i] in "0123456789" }

  /** The number that decimal digits stand for, however large. */
  ghost function ValueOf(s: string): nat
    requires AllDigits(s)
  {
    if s == [] then 0 else 10 * ValueOf(s[..|s|-1]) + (s[|s|-1] as int - '0' as int)
  }

  lemma DigitValue(c: char)
    ensures c in "0123456789" <==> IsDigit(c)
    ensures IsDigit(c) ==> "0123456789"[c as int - '0' as int] == c
  {
    var digits := "0123456789";
    if IsDigit(c) {
      var d := c as int - '0' as int;
      assert d == 0 || d == 1 || d == 2 || d == 3 || d == 4 || d == 5 || d == 6 || d == 7 || d == 8 || d == 9;
      assert digits[d] == c;
    }
  }

  lemma {:induction false} DigitsRead(s: string)
    requires ParseDigits(s).Some?
    ensures AllDigits(s) && ValueOf(s) == ParseDigits(s).value <= U64_MAX
  {
    if s != [] {
      DigitsRead(s[..|s|-1]);
      DigitValue(s[|s|-1]);
      assert forall i | 0 <= i < |s| - 1 :: s[i] == s[..|s|-1][i];
    }
  }

  lemma {:induction false} DigitsFit(s: string)
    requires AllDigits(s) && ValueOf(s) <= U64_MAX
    ensures ParseDigits(s).Some?
  {
    if s != [] {
      DigitsFit(s[..|s|-1]);
      DigitsRead(s[..|s|-1]);
      DigitValue(s[|s|-1]);
    }
  }

  /** Digits are accepted exactly when what they stand for fits 64 bits. */
  lemma DigitsExactly(s: string, v: nat)
    ensures ParseDigits(s) == Some(v) <==> AllDigits(s) && ValueOf(s) == v <= U64_MAX
  {
    if ParseDigits(s).Some? { DigitsRead(s); }
    if AllDigits(s) && ValueOf(s) <= U64_MAX { DigitsFit(s); }
  }

  ghost predicate Numeral(s: string, v: nat) { s != [] && AllDigits(s) && ValueOf(s) == v <= U64_MAX }

  /** A number is a numeral, or one behind a plus sign. */
  lemma NumberExactly(s: string, v: nat)
    ensures ParseNumber(s) == Some(v) <==> Numeral(s, v) || (s != [] && s[0] == '+' && Numeral(s[1..], v))
  {
    DigitsExactly(s, v);
    if s != [] {
      DigitValue(s[0]);
      DigitsExactly(s[1..], v);
    }
  }

  // ------------------------------------------------------------ pieces

  /** Joining undoes splitting, and no piece contains the separator. */
  lemma {:induction false} JoinSplit(s: string, sep: char)
    ensures Join(Split(s, sep), sep) == s && forall p | p in Split(s, sep) :: sep !in p
  {
    if s != [] {
      var front, c := s[..|s|-1], s[|s|-1];
      JoinSplit(front, sep);
      var parts := Split(front, sep);
      if c == sep {
        assert (parts + [[]])[..|parts|] == parts;
      } else {
        JoinLonger(parts, c, sep);
      }
      assert s == front + [c];
    }
  }

  lemma JoinLonger(parts: seq<string>, c: char, sep: char)
    requires |parts| > 0 && c != sep && forall p | p in parts :: sep !in p
    ensures var longer := parts[..|parts|-1] + [parts[|parts|-1] + [c]];
            Join(longer, sep) == Join(parts, sep) + [c] && forall p | p in longer :: sep !in p
  {
    var n := |parts| - 1;
    var longer := parts[..n] + [parts[n] + [c]];
    assert longer[..n] == parts[..n];
    forall p | p in longer ensures sep !in p {
      if p != parts[n] + [c] { assert p in parts[..n]; } else { assert parts[n] in parts; }
    }
  }

  /** A part is one number, or two with a dash between them. */
  lemma PartExactly(part: string, r: Run)
    ensures ParsePart(part) == Some(r) <==>
            || ('-' !in part && r.first == r.last && ParseNumber(part) == Some(r.first))
            || (exists a, b :: part == a + "-" + b && IsRange(a, b, r))
  {
    if '-' in part {
      if ParsePart(part) == Some(r) {
        var range := Split(part, '-');
        JoinSplit(part, '-');
        JoinTwo(range[0], range[1], '-');
        assert range == [range[0], range[1]];
        assert part == range[0] + "-" + range[1] && IsRange(range[0], range[1], r);
      }
      if a, b :| part == a + "-" + b && IsRange(a, b, r) {
        JoinTwo(a, b, '-');
        SplitJoin([a, b], '-');
      }
    } else if a, b :| part == a + "-" + b && IsRange(a, b, r) {
      DashInside(a, b);
    }
  }

  lemma DashInside(a: string, b: string)
    ensures '-' in a + "-" + b
  {
    assert (a + "-" + b)[|a|] == '-';
  }

  ghost predicate IsRange(a: string, b: string, r: Run) {
    '-' !in a && '-' !in b && ParseNumber(a) == Some(r.first) && ParseNumber(b) == Some(r.last)
  }

  lemma JoinTwo(a: string, b: string, sep: char)
    ensures Join([a, b], sep) == a + [sep] + b
  {
    assert [a, b][..1] == [a];
  }

  // ------------------------------------------------------------ lists

  /** A list may go on with a comma and one more part; it then has the ids of both. */
  lemma CommaExactly(text: string, part: string, x: nat)
    requires text != "" && ',' !in part
    ensures Parsed(text + "," + part).Some? <==> Parsed(text).Some? && ParsePart(part).Some?
    ensures Parsed(text + "," + part).Some? ==>
              (x in Parsed(text + "," + part).value <==>
               x in Parsed(text).value || ParsePart(part).value.first <= x <= ParsePart(part).value.last)
  {
    SplitNext(text, part, ',');
    var before := ParseParts(Split(text, ','));
    assert (Split(text, ',') + [part])[..|Split(text, ',')|] == Split(text, ',');
    if before.Some? && ParsePart(part).Some? {
      ParsedHas(before.value, x);
      ParsedHas(before.value + [ParsePart(part).value], x);
      InRunsAppend(before.value, ParsePart(part).value);
    }
  }

  lemma ParsedHas(runs: seq<Run>, x: nat)
    ensures x in Normal(ExpandAll(runs)) <==> InRuns(runs, x)
  {
    NormalExact(ExpandAll(runs));
    InExpandAll(runs, x);
  }

  /** A list of one part. */
  lemma PartAlone(part: string, x: nat)
    requires part != "" && ',' !in part
    ensures Parsed(part).Some? <==> ParsePart(part).Some?
    ensures Parsed(part).Some? ==>
              (x in Parsed(part).value <==> ParsePart(part).value.first <= x <= ParsePart(part).value.last)
  {
    SplitJoin([part], ',');
    assert [part][..0] == [];
    if ParsePart(part).Some? {
      var run := ParsePart(part).value;
      assert [] + [run] == [run];
      assert ParseParts([part]) == Some([run]);
      ParsedHas([run], x);
      assert [run][0] == run;
    }
  }

  lemma NextSmall(cpu: nat)
    requires cpu < U64_MAX
    ensures Next(cpu) == cpu + 1
  {
    DivModUnique(CPU_RANGE, 0, cpu + 1);
  }

  lemma OneRun(cpu: nat)
    ensures Runs([cpu]) == [Run(cpu, cpu)]
  {
    RunsNext([], cpu);
    assert [] + [cpu] == [cpu];
  }

  /** Two ids in a row are one run. */
  lemma RunOfTwo(cpu: nat)
    requires cpu < U64_MAX
    ensures Runs([cpu, cpu + 1]) == [Run(cpu, cpu + 1)]
  {
    OneRun(cpu);
    NextSmall(cpu);
    RunsNext([cpu], cpu + 1);
    assert [cpu] + [cpu + 1] == [cpu, cpu + 1];
  }

  /** Any other id starts a new run. */
  lemma RunOfThree(cpu: nat, other: nat)
    requires cpu + 1 < U64_MAX && other != cpu + 2
    ensures Runs([cpu, cpu + 1, other]) == [Run(cpu, cpu + 1), Run(other, other)]
  {
    RunOfTwo(cpu);
    NextSmall(cpu + 1);
    RunsNext([cpu, cpu + 1], other);
    assert [cpu, cpu + 1] + [other] == [cpu, cpu + 1, other];
  }

  lemma PrintTwo(r: Run, s: Run)
    ensures PrintAll([r, s]) == [Print(r), Print(s)]
  {
    assert [r, s][..1] == [r] && [r][..0] == [];
    assert PrintAll([r]) == PrintAll([r][..0]) + [Print(r)];
  }

  /** Two neighbours and another id are printed with a dash and a comma. */
  lemma PrintedText(cpu: nat, other: nat)
    requires cpu + 1 < U64_MAX && other != cpu + 2
    ensures Formatted([cpu, cpu + 1, other]) == Decimal(cpu) + "-" + Decimal(cpu + 1) + "," + Decimal(other)
  {
    RunOfThree(cpu, other);
    PrintTwo(Run(cpu, cpu + 1), Run(other, other));
    JoinTwo(Print(Run(cpu, cpu + 1)), Print(Run(other, other)), ',');
  }

  /** Printed numbers: single digits, and one more digit behind a number. */
  lemma DecimalText(n: nat, d: nat)
    requires d < 10
    ensures Decimal(d) == ["0123456789"[d]] && (n > 0 ==> Decimal(10 * n + d) == Decimal(n) + ["0123456789"[d]])
  {
    DigitValue(Digit(d));
    DivModUnique(10, n, d);
  }
}
