/** Printing a snapshot and parsing the text gives the snapshot back, every double rounded to
    hundredths. */
module RoundTrip {
  import opened Wrappers
  import opened Decimal
  import opened Metrics
  import opened Serializer
  import opened Deserializer
  import opened Acceptance

  /** Text that survives a line of its own. */
  predicate LineSafe(s: string) {
    s != "" && '\n' !in s && !EndsInCr(s)
  }

  predicate PrintableProcess(p: ProcessMetric) {
    && LineSafe(p.name) && p.pid >= 0
    && p.cpuUsagePercent.Finite() && p.memoryUsagePercent.Finite()
  }

  predicate PrintableField(m: SystemMetrics, f: Field) {
    match KindOf(f)
    case NonEmptyText => ValueOf(m, f).TextValue? && LineSafe(ValueOf(m, f).text)
    case Count => ValueOf(m, f).CountValue? && ValueOf(m, f).count < UINT64_LIMIT
    case PositiveCount => ValueOf(m, f).CountValue? && 0 < ValueOf(m, f).count < UINT64_LIMIT
    case Number => ValueOf(m, f).NumberValue? && ValueOf(m, f).number.Finite()
    case PositiveNumber =>
      // A sample interval that rounds to zero hundredths is refused by the parser.
      && ValueOf(m, f).NumberValue? && ValueOf(m, f).number.Finite()
      && !ValueOf(m, f).number.negative && Hundredths(ValueOf(m, f).number) > 0
  }

  /** Snapshots the agent can send: non-empty names free of line breaks, finite doubles, at least
      one CPU, and an interval of at least a hundredth of a second once rounded. */
  ghost predicate Printable(m: SystemMetrics) {
    && (forall f: Field :: PrintableField(m, f))
    && (forall p <- m.topProcesses :: PrintableProcess(p))
  }

  // ---------------------------------------------------------------------------
  // Single values
  // ---------------------------------------------------------------------------

  /** A character found in printed numbers. */
  predicate IsNumberChar(c: char) {
    IsDigit(c) || c == '-' || c == '.'
  }

  predicate NumberText(s: string) {
    s != "" && forall i :: 0 <= i < |s| ==> IsNumberChar(s[i])
  }

  lemma NumbersPrintAsNumbers(n: int, d: Double)
    ensures NumberText(PrintInt(n)) && NumberText(PrintDouble(d))
  {
    var t := PrintHundredths(Hundredths(d));
    assert NumberText(PrintNat(Hundredths(d) / 100));
    assert NumberText(t);
  }

  lemma NumberTextIsSafe(s: string)
    requires NumberText(s)
    ensures LineSafe(s) && ',' !in s
  {
    assert IsNumberChar(s[|s| - 1]);
  }

  lemma PrintedFieldIsSafe(m: SystemMetrics, f: Field)
    requires PrintableField(m, f)
    ensures LineSafe(PrintValue(ValueOf(m, f)))
  {
    hide PrintNat, PrintDouble, LineSafe, NumberText, KindOf;
    match ValueOf(m, f) {
      case TextValue(text) =>
      case CountValue(count) =>
        NumbersPrintAsNumbers(count, ZERO);
        NumberTextIsSafe(PrintNat(count));
      case NumberValue(number) =>
        NumbersPrintAsNumbers(0, number);
        NumberTextIsSafe(PrintDouble(number));
    }
  }

  lemma ParseUint64OfPrinted(lib: NumberLibrary, n: uint64)
    requires ReadsPrintedNumbers(lib)
    ensures ParseUint64(lib, PrintNat(n)) == Some(n)
  {
    hide PrintNat;
    assert lib.stoull(PrintNat(n)) == Some(Prefix(n, |PrintNat(n)|));
  }

  lemma ParseIntOfPrinted(lib: NumberLibrary, n: int32)
    requires ReadsPrintedNumbers(lib)
    ensures ParseInt(lib, PrintInt(n)) == Some(n)
  {
    NumbersPrintAsNumbers(n, ZERO);
    hide PrintInt;
    assert lib.stoll(PrintInt(n)) == Some(Prefix(n, |PrintInt(n)|));
  }

  lemma ParseDoubleOfPrinted(lib: NumberLibrary, d: Double)
    requires ReadsPrintedNumbers(lib) && d.Finite()
    ensures ParseDouble(lib, PrintDouble(d)) == Some(Rounded(d))
  {
    NumbersPrintAsNumbers(0, d);
    hide PrintDouble, Rounded, Double.Finite;
    assert lib.stod(PrintDouble(d)) == Some(Prefix(Finite(Rounded(d)), |PrintDouble(d)|));
  }

  lemma ParseFieldOfPrinted(lib: NumberLibrary, m: SystemMetrics, f: Field)
    requires ReadsPrintedNumbers(lib) && PrintableField(m, f)
    ensures ParseField(lib, f, PrintValue(ValueOf(m, f))) == Some(RoundedValue(ValueOf(m, f)))
  {
    hide PrintNat, PrintDouble, Rounded, LineSafe, ReadsPrintedNumbers, ParseUint64, ParseDouble, ValueOf, KindOf,
         Double.Finite, Double.Positive;
    match ValueOf(m, f) {
      case TextValue(text) =>
        SafeIsNotEmpty(text);
      case CountValue(count) =>
        ParseUint64OfPrinted(lib, count);
      case NumberValue(number) =>
        ParseDoubleOfPrinted(lib, number);
        if KindOf(f) == PositiveNumber {
          RoundedIsPositive(number);
        }
    }
  }

  lemma SafeIsNotEmpty(s: string)
    ensures LineSafe(s) ==> s != ""
  {
  }

  lemma RoundedIsPositive(d: Double)
    requires !d.negative && Hundredths(d) > 0
    ensures Rounded(d).Positive()
  {
  }

  // ---------------------------------------------------------------------------
  // Lines
  // ---------------------------------------------------------------------------

  lemma KeyedLine(key: string, text: string)
    requires key != "" && '=' !in key && '\n' !in key
    ensures var line, kept := key + "=" + text, StripCr(text);
            && ('\n' !in text ==> '\n' !in line)
            && Classify(line) == if key == "process" then ProcessRecord(kept) else ScalarRecord(key, kept)
    ensures LineSafe(text) ==> StripCr(text) == text && '\n' !in text
  {
    var line, kept := key + "=" + text, key + "=" + StripCr(text);
    if text != "" {
      assert line[|line| - 1] == text[|text| - 1];
      assert line[..|line| - 1] == key + "=" + text[..|text| - 1];
    } else {
      assert line[|line| - 1] == '=';
    }
    assert StripCr(line) == kept;
    assert kept[..|key|] == key && kept[|key| + 1..] == StripCr(text);
    IndexOfIs(kept, '=', |key|);
  }

  predicate IsKey(s: string) {
    s != "" && '=' !in s && '\n' !in s && s != "process"
  }

  lemma NamesAreKeys(f: Field)
    ensures IsKey(Name(f))
  {
    if Position(f) < Position(MemoryUsagePercent) {
      EarlyNamesAreKeys(f);
    } else if Position(f) < Position(DiskTotalBytes) {
      MiddleNamesAreKeys(f);
    } else if Position(f) < Position(NetworkRxBytesPerSecond) {
      DiskNamesAreKeys(f);
    } else if Position(f) < Position(SampleIntervalSeconds) {
      NetworkNamesAreKeys(f);
    } else {
      LateNamesAreKeys(f);
    }
  }

  lemma EarlyNamesAreKeys(f: Field)
    requires Position(f) < Position(MemoryUsagePercent)
    ensures IsKey(Name(f))
  {
  }

  lemma MiddleNamesAreKeys(f: Field)
    requires Position(MemoryUsagePercent) <= Position(f) < Position(DiskTotalBytes)
    ensures IsKey(Name(f))
  {
  }

  lemma DiskNamesAreKeys(f: Field)
    requires Position(DiskTotalBytes) <= Position(f) < Position(NetworkRxBytesPerSecond)
    ensures IsKey(Name(f))
  {
  }

  lemma NetworkNamesAreKeys(f: Field)
    requires Position(NetworkRxBytesPerSecond) <= Position(f) < Position(SampleIntervalSeconds)
    ensures IsKey(Name(f))
  {
  }

  lemma LateNamesAreKeys(f: Field)
    requires Position(SampleIntervalSeconds) <= Position(f)
    ensures IsKey(Name(f))
  {
  }

  lemma FieldLineReads(m: SystemMetrics, f: Field)
    requires PrintableField(m, f)
    ensures '\n' !in FieldLine(m, f)
    ensures Classify(FieldLine(m, f)) == ScalarRecord(Name(f), PrintValue(ValueOf(m, f)))
  {
    hide Name, Classify, PrintableField, ValueOf, PrintValue, LineSafe;
    PrintedFieldIsSafe(m, f);
    NamesAreKeys(f);
    KeyedLine(Name(f), PrintValue(ValueOf(m, f)));
  }

  lemma ProcessLineReads(lib: NumberLibrary, p: ProcessMetric)
    requires ReadsPrintedNumbers(lib) && PrintableProcess(p)
    ensures '\n' !in ProcessLine(p)
    ensures Classify(ProcessLine(p)) == ProcessRecord(PrintProcess(p))
    ensures ParseProcess(lib, PrintProcess(p)) == Some(RoundedProcess(p))
  {
    hide Classify, PrintProcess, ParseProcess, LineSafe, ReadsPrintedNumbers, Double.Finite, Rounded;
    PrintedProcessIsSafe(p);
    PrintedProcessParses(lib, p);
    KeyedLine("process", PrintProcess(p));
    assert "process" + "=" + PrintProcess(p) == ProcessLine(p);
  }

  function ProcessFields(p: ProcessMetric): seq<string> {
    [PrintInt(p.pid), PrintDouble(p.cpuUsagePercent), PrintDouble(p.memoryUsagePercent),
     PrintNat(p.residentMemoryKB), p.name]
  }

  lemma ProcessFieldsJoin(p: ProcessMetric)
    ensures JoinCommas(ProcessFields(p)) == PrintProcess(p)
  {
    hide PrintInt, PrintNat, PrintDouble;
    var f := ProcessFields(p);
    assert f[1..][1..] == f[2..] && f[2..][1..] == f[3..] && f[3..][1..] == f[4..];
    assert JoinCommas(f[4..]) == f[4];
    assert JoinCommas(f[3..]) == f[3] + "," + f[4];
    assert JoinCommas(f[2..]) == f[2] + "," + JoinCommas(f[3..]);
    assert JoinCommas(f[1..]) == f[1] + "," + JoinCommas(f[2..]);
  }

  lemma ProcessFieldsAreSafe(p: ProcessMetric)
    requires LineSafe(p.name)
    ensures forall i :: 0 <= i < 5 ==> LineSafe(ProcessFields(p)[i])
    ensures NoCommaBeforeLast(ProcessFields(p))
  {
    NumbersPrintAsNumbers(p.pid, p.cpuUsagePercent);
    NumbersPrintAsNumbers(p.residentMemoryKB, p.memoryUsagePercent);
    hide PrintInt, PrintNat, PrintDouble, LineSafe, NumberText;
    NumberTextIsSafe(PrintInt(p.pid));
    NumberTextIsSafe(PrintDouble(p.cpuUsagePercent));
    NumberTextIsSafe(PrintDouble(p.memoryUsagePercent));
    assert PrintInt(p.residentMemoryKB) == PrintNat(p.residentMemoryKB) by { PrintIntOfNat(p.residentMemoryKB); }
    NumberTextIsSafe(PrintNat(p.residentMemoryKB));
  }

  lemma PrintIntOfNat(n: nat)
    ensures PrintInt(n) == PrintNat(n)
  {
  }

  lemma PrintedProcessIsSafe(p: ProcessMetric)
    requires LineSafe(p.name)
    ensures LineSafe(PrintProcess(p))
  {
    ProcessFieldsAreSafe(p);
    hide PrintInt, PrintNat, PrintDouble;
    var f, s := ProcessFields(p), PrintProcess(p);
    assert s == f[0] + "," + f[1] + "," + f[2] + "," + f[3] + "," + f[4];
    assert s[|s| - 1] == f[4][|f[4]| - 1];
  }

  lemma PrintedProcessParses(lib: NumberLibrary, p: ProcessMetric)
    requires ReadsPrintedNumbers(lib) && PrintableProcess(p)
    ensures ParseProcess(lib, PrintProcess(p)) == Some(RoundedProcess(p))
  {
    ProcessFieldsAreSafe(p);
    ProcessFieldsJoin(p);
    ParseIntOfPrinted(lib, p.pid);
    ParseDoubleOfPrinted(lib, p.cpuUsagePercent);
    ParseDoubleOfPrinted(lib, p.memoryUsagePercent);
    ParseUint64OfPrinted(lib, p.residentMemoryKB);
    hide PrintInt, PrintNat, PrintDouble, SplitCommas, JoinCommas, PrintProcess, ParseInt, ParseDouble, ParseUint64,
         ReadsPrintedNumbers, Rounded;
    SplitUndoesJoin(PrintProcess(p), 4, ProcessFields(p));
  }

  // ---------------------------------------------------------------------------
  // The whole text
  // ---------------------------------------------------------------------------

  ghost function BodyRecords(m: SystemMetrics): (records: seq<Record>)
    ensures |records| == |FIELDS| + |m.topProcesses|
  {
    ClassifyAll(FieldLines(m) + ProcessLines(m))
  }

  lemma BodyRecord(lib: NumberLibrary, m: SystemMetrics, i: nat)
    requires Printable(m) && ReadsPrintedNumbers(lib) && i < |BodyRecords(m)|
    ensures i < |FIELDS| ==>
              BodyRecords(m)[i] == ScalarRecord(Name(FIELDS[i]), PrintValue(ValueOf(m, FIELDS[i])))
    ensures i >= |FIELDS| ==>
              BodyRecords(m)[i] == ProcessRecord(PrintProcess(m.topProcesses[i - |FIELDS|]))
    ensures '\n' !in SnapshotLines(m)[i + 1]
  {
    hide Classify, Name, PrintValue, ValueOf, PrintProcess, PrintableField, PrintableProcess, ReadsPrintedNumbers;
    if i < |FIELDS| {
      FieldLineReads(m, FIELDS[i]);
    } else {
      ProcessLineReads(lib, m.topProcesses[i - |FIELDS|]);
    }
  }

  lemma FieldsArePositions(i: nat, f: Field)
    requires i < |FIELDS|
    ensures FIELDS[i] == f <==> i == Position(f)
  {
  }

  lemma {:induction false} CountUnique(records: seq<Record>, f: Field, k: nat)
    requires k < |records| && Gives(records[k], f)
    requires forall i :: 0 <= i < |records| && i != k ==> !Gives(records[i], f)
    ensures CountOf(records, f) == 1
  {
    hide Gives;
    if k == 0 {
      CountNone(records[1..], f);
    } else {
      CountUnique(records[1..], f, k - 1);
    }
  }

  lemma {:induction false} CountNone(records: seq<Record>, f: Field)
    requires forall i :: 0 <= i < |records| ==> !Gives(records[i], f)
    ensures CountOf(records, f) == 0
  {
    hide Gives;
    if records != [] {
      CountNone(records[1..], f);
    }
  }

  lemma {:induction false} TrailingProcessTexts(records: seq<Record>, k: nat)
    requires k <= |records|
    requires forall i :: 0 <= i < k ==> !records[i].ProcessRecord?
    requires forall i :: k <= i < |records| ==> records[i].ProcessRecord?
    ensures |ProcessTexts(records)| == |records| - k
    ensures forall i :: k <= i < |records| ==> ProcessTexts(records)[i - k] == records[i].text
  {
    if records != [] {
      var tail := ProcessTexts(records[1..]);
      TrailingProcessTexts(records[1..], if k == 0 then 0 else k - 1);
      if k == 0 {
        assert ProcessTexts(records) == [records[0].text] + tail;
      } else {
        assert ProcessTexts(records) == [] + tail == tail;
      }
    }
  }

  lemma GivesField(r: Record, f: Field, g: Field, text: string)
    requires r == ScalarRecord(Name(g), text)
    ensures Gives(r, f) <==> f == g
  {
    hide Name, FieldNamed;
    NamesAreDistinct(g);
  }

  lemma BodyGives(lib: NumberLibrary, m: SystemMetrics, i: nat, f: Field)
    requires Printable(m) && ReadsPrintedNumbers(lib) && i < |BodyRecords(m)|
    ensures Gives(BodyRecords(m)[i], f) <==> i == Position(f)
  {
    BodyRecord(lib, m, i);
    hide BodyRecords, Name, PrintValue, ValueOf, PrintProcess, Printable, ReadsPrintedNumbers, Gives, Position;
    if i < |FIELDS| {
      GivesField(BodyRecords(m)[i], f, FIELDS[i], PrintValue(ValueOf(m, FIELDS[i])));
      FieldsArePositions(i, f);
    } else {
      NotAProcess(BodyRecords(m)[i], f);
    }
  }

  lemma NotAProcess(r: Record, f: Field)
    requires r.ProcessRecord?
    ensures !Gives(r, f)
  {
  }

  lemma BodyIsValid(lib: NumberLibrary, m: SystemMetrics, i: nat)
    requires Printable(m) && ReadsPrintedNumbers(lib) && i < |BodyRecords(m)|
    ensures ValidRecord(lib, BodyRecords(m)[i])
    ensures forall f: Field :: Gives(BodyRecords(m)[i], f) ==>
              BodyRecords(m)[i].ScalarRecord? &&
              ParseField(lib, f, BodyRecords(m)[i].text) == Some(ValueOf(RoundedMetrics(m), f))
  {
    BodyRecord(lib, m, i);
    hide BodyRecords, Name, PrintValue, ValueOf, PrintProcess, ReadsPrintedNumbers, PrintableField,
         PrintableProcess, FieldNamed, ParseField, ParseProcess, RoundedMetrics, RoundedValue;
    if i < |FIELDS| {
      var f := FIELDS[i];
      NamesAreDistinct(f);
      ParseFieldOfPrinted(lib, m, f);
      RoundedFields(m, f);
    } else {
      ProcessLineReads(lib, m.topProcesses[i - |FIELDS|]);
    }
  }

  lemma BodyGivesEachFieldOnce(lib: NumberLibrary, m: SystemMetrics, f: Field)
    requires Printable(m) && ReadsPrintedNumbers(lib)
    ensures CountOf(BodyRecords(m), f) == 1
  {
    hide BodyRecords, Printable, ReadsPrintedNumbers, Gives, CountOf, Position;
    var records := BodyRecords(m);
    forall i | 0 <= i < |records|
      ensures Gives(records[i], f) <==> i == Position(f)
    {
      BodyGives(lib, m, i, f);
    }
    CountUnique(records, f, Position(f));
  }

  lemma BodyListsProcesses(lib: NumberLibrary, m: SystemMetrics)
    requires Printable(m) && ReadsPrintedNumbers(lib)
    ensures ProcessesAre(lib, ProcessTexts(BodyRecords(m)), RoundedMetrics(m).topProcesses)
  {
    hide BodyRecords, PrintProcess, ReadsPrintedNumbers, PrintableField, PrintableProcess, ParseProcess,
         RoundedProcess, ProcessTexts;
    var records := BodyRecords(m);
    forall i | 0 <= i < |records|
      ensures i < 21 ==> !records[i].ProcessRecord?
      ensures i >= 21 ==> records[i] == ProcessRecord(PrintProcess(m.topProcesses[i - 21]))
    {
      BodyRecord(lib, m, i);
    }
    TrailingProcessTexts(records, 21);
    forall i | 0 <= i < |m.topProcesses|
      ensures ParseProcess(lib, ProcessTexts(records)[i]) == Some(RoundedProcess(m.topProcesses[i]))
    {
      assert records[i + 21].text == PrintProcess(m.topProcesses[i]);
      ProcessLineReads(lib, m.topProcesses[i]);
    }
  }

  lemma PrintedDescribes(lib: NumberLibrary, m: SystemMetrics)
    requires Printable(m) && ReadsPrintedNumbers(lib)
    ensures Describes(lib, BodyRecords(m), RoundedMetrics(m))
  {
    hide BodyRecords, Printable, ReadsPrintedNumbers, RoundedMetrics, ProcessesAre, ProcessTexts,
         ParseField, ValueOf, ValidRecord, Gives, CountOf;
    var records := BodyRecords(m);
    forall r <- records
      ensures ValidRecord(lib, r)
      ensures forall f: Field :: Gives(r, f) ==>
                r.ScalarRecord? && ParseField(lib, f, r.text) == Some(ValueOf(RoundedMetrics(m), f))
    {
      var i :| 0 <= i < |records| && records[i] == r;
      BodyIsValid(lib, m, i);
    }
    forall f: Field
      ensures CountOf(records, f) == 1
    {
      BodyGivesEachFieldOnce(lib, m, f);
    }
    BodyListsProcesses(lib, m);
  }

  lemma SnapshotHasNoLineFeed(lib: NumberLibrary, m: SystemMetrics)
    requires Printable(m) && ReadsPrintedNumbers(lib)
    ensures NoLineFeed(SnapshotLines(m))
  {
    hide BodyRecords, FieldLine, ProcessLine, Printable, ReadsPrintedNumbers;
    forall line <- SnapshotLines(m)
      ensures '\n' !in line
    {
      var i :| 0 <= i < |SnapshotLines(m)| && SnapshotLines(m)[i] == line;
      if i > 0 {
        BodyRecord(lib, m, i - 1);
      }
    }
  }

  /** The round trip: what the parser makes of the printed snapshot is the snapshot rounded. */
  lemma PrintThenParse(lib: NumberLibrary, m: SystemMetrics)
    requires Printable(m) && ReadsPrintedNumbers(lib)
    ensures Interpret(lib, Unlines(SnapshotLines(m))) == Success(RoundedMetrics(m))
  {
    hide Describes, RoundedMetrics, Printable, ReadsPrintedNumbers, Interpret, Unlines, SplitLines, NoLineFeed,
         Classify, FieldLines, ProcessLines;
    var lines := SnapshotLines(m);
    SnapshotHasNoLineFeed(lib, m);
    SplitOfUnlines(lines);
    PrintedDescribes(lib, m);
    assert lines[1..] == FieldLines(m) + ProcessLines(m);
    assert StripCr(lines[0]) == PROTOCOL_VERSION;
    Accepted(lib, Unlines(lines), RoundedMetrics(m));
  }

  /** Printing the result again gives the same text. */
  lemma ReprintIsTheSame(m: SystemMetrics)
    ensures SnapshotLines(RoundedMetrics(m)) == SnapshotLines(m)
  {
    var r := RoundedMetrics(m);
    forall f: Field
      ensures FieldLine(r, f) == FieldLine(m, f)
    {
      RoundedFields(m, f);
      hide RoundedMetrics, Name, ValueOf, PrintDouble, PrintNat, Rounded;
      if ValueOf(m, f).NumberValue? {
        RoundedPrintsTheSame(ValueOf(m, f).number);
      }
    }
    forall i | 0 <= i < |m.topProcesses|
      ensures ProcessLine(r.topProcesses[i]) == ProcessLine(m.topProcesses[i])
    {
      RoundedPrintsTheSame(m.topProcesses[i].cpuUsagePercent);
      RoundedPrintsTheSame(m.topProcesses[i].memoryUsagePercent);
    }
    hide RoundedMetrics, FieldLine, ProcessLine;
    assert FieldLines(r) == FieldLines(m);
    assert ProcessLines(r) == ProcessLines(m);
  }
}
