/** The converse of the round trip: a snapshot with finite numbers that comes back from the parser
    is printable, whatever the number library does. */
module Printability {
  import opened Wrappers
  import opened Decimal
  import opened Metrics
  import opened Serializer
  import opened Deserializer
  import opened Acceptance
  import opened RoundTrip

  // ---------------------------------------------------------------------------
  // What the parser accepts holds no line feed
  // ---------------------------------------------------------------------------

  lemma {:induction false} LinesHaveNoLineFeed(s: string)
    ensures NoLineFeed(SplitLines(s))
    decreases |s|
  {
    if s != "" {
      var i := IndexOf(s, '\n');
      if i < |s| {
        LinesHaveNoLineFeed(s[i + 1..]);
      }
      assert '\n' !in s[..i];
    }
  }

  predicate TextHasNoLineFeed(r: Record) {
    r.ScalarRecord? || r.ProcessRecord? ==> '\n' !in r.text
  }

  lemma RecordOfLine(line: string)
    requires '\n' !in line
    ensures TextHasNoLineFeed(Classify(line))
  {
    var s := StripCr(line);
    assert forall c <- s :: c in line;
    assert forall c <- s[IndexOf(s, '=')..] :: c in s;
  }

  lemma RecordsOfPayload(payload: string, r: Record)
    requires SplitLines(payload) != [] && r in ClassifyAll(SplitLines(payload)[1..])
    ensures TextHasNoLineFeed(r)
  {
    hide SplitLines, Classify, TextHasNoLineFeed;
    LinesHaveNoLineFeed(payload);
    var lines := SplitLines(payload);
    var i :| 0 <= i < |lines| - 1 && r == ClassifyAll(lines[1..])[i];
    assert lines[1..][i] in lines;
    RecordOfLine(lines[1..][i]);
  }

  /** The records of an accepted payload. */
  ghost predicate Accepts(lib: NumberLibrary, records: seq<Record>, m: SystemMetrics) {
    Describes(lib, records, m) && forall r <- records :: TextHasNoLineFeed(r)
  }

  lemma AcceptedField(lib: NumberLibrary, records: seq<Record>, m: SystemMetrics, f: Field)
    requires Accepts(lib, records, m)
    ensures HasKind(KindOf(f), ValueOf(m, f))
    ensures ValueOf(m, f).TextValue? ==> '\n' !in ValueOf(m, f).text
  {
    hide ValueOf, FieldNamed, KindOf, ParseProcess, ProcessesAre, ValidRecord, CountOf;
    assert CountOf(records, f) == 1;
    var r := FieldIsGiven(records, f);
    assert ParseField(lib, f, r.text) == Some(ValueOf(m, f));
    assert TextHasNoLineFeed(r);
  }

  lemma {:induction false} LastOfJoin(fields: seq<string>)
    requires fields != []
    ensures var s, last := JoinCommas(fields), fields[|fields| - 1]; |last| <= |s| && s[|s| - |last|..] == last
  {
    if |fields| > 1 {
      LastOfJoin(fields[1..]);
    }
  }

  lemma ParsedProcess(lib: NumberLibrary, text: string, p: ProcessMetric)
    requires ParseProcess(lib, text) == Some(p)
    ensures p.pid >= 0 && p.name != "" && |p.name| <= |text| && text[|text| - |p.name|..] == p.name
  {
    hide SplitCommas, JoinCommas, ParseInt, ParseDouble, ParseUint64;
    var fields := SplitCommas(text, 4).value;
    SplitUndoesJoin(text, 4, fields);
    LastOfJoin(fields);
  }

  lemma AcceptedProcess(lib: NumberLibrary, records: seq<Record>, m: SystemMetrics, i: nat)
    requires Accepts(lib, records, m) && i < |m.topProcesses|
    ensures |ProcessTexts(records)| == |m.topProcesses|
    ensures ParseProcess(lib, ProcessTexts(records)[i]) == Some(m.topProcesses[i])
    ensures '\n' !in m.topProcesses[i].name
  {
    hide ParseProcess, ParseField, ProcessTexts, CountOf, Gives, ValidRecord, ValueOf;
    var text, p := ProcessTexts(records)[i], m.topProcesses[i];
    ParsedProcess(lib, text, p);
    OthersMember(records, ProcessRecord(text));
    assert TextHasNoLineFeed(ProcessRecord(text));
    assert forall c <- text[|text| - |p.name|..] :: c in text;
  }

  // ---------------------------------------------------------------------------
  // So the lines of the text are the printed lines
  // ---------------------------------------------------------------------------

  /** No text of the snapshot holds a line feed. */
  ghost predicate OneLineTexts(m: SystemMetrics) {
    && (forall f: Field :: ValueOf(m, f).TextValue? ==> '\n' !in ValueOf(m, f).text)
    && (forall p <- m.topProcesses :: '\n' !in p.name)
  }

  lemma FieldLineIsOne(m: SystemMetrics, f: Field)
    requires OneLineTexts(m)
    ensures '\n' !in FieldLine(m, f)
    ensures Classify(FieldLine(m, f)) == ScalarRecord(Name(f), StripCr(PrintValue(ValueOf(m, f))))
  {
    hide Name, Classify, PrintNat, PrintDouble, ValueOf, NumberText;
    match ValueOf(m, f) {
      case TextValue(_) =>
      case CountValue(count) =>
        NumbersPrintAsNumbers(count, ZERO);
        PrintIntOfNat(count);
        NumberTextIsSafe(PrintNat(count));
      case NumberValue(number) =>
        NumbersPrintAsNumbers(0, number);
        NumberTextIsSafe(PrintDouble(number));
    }
    NamesAreKeys(f);
    KeyedLine(Name(f), PrintValue(ValueOf(m, f)));
  }

  /** The printed record up to the name. */
  function NumbersOf(p: ProcessMetric): string {
    PrintInt(p.pid) + "," + PrintDouble(p.cpuUsagePercent) + "," + PrintDouble(p.memoryUsagePercent) + ","
    + PrintNat(p.residentMemoryKB) + ","
  }

  lemma NumbersAreOneLine(p: ProcessMetric)
    ensures PrintProcess(p) == NumbersOf(p) + p.name
    ensures '\n' !in NumbersOf(p) && NumbersOf(p) != ""
  {
    ProcessFieldsAreSafe(p.(name := "x"));
    hide PrintInt, PrintNat, PrintDouble;
    var f := ProcessFields(p.(name := "x"));
    assert NumbersOf(p) == f[0] + "," + f[1] + "," + f[2] + "," + f[3] + ",";
    assert LineSafe(f[0]) && LineSafe(f[1]) && LineSafe(f[2]) && LineSafe(f[3]);
  }

  lemma ProcessLineIsOne(p: ProcessMetric)
    requires '\n' !in p.name
    ensures '\n' !in ProcessLine(p)
    ensures Classify(ProcessLine(p)) == ProcessRecord(StripCr(PrintProcess(p)))
  {
    hide PrintProcess, NumbersOf, Classify;
    NumbersAreOneLine(p);
    KeyedLine("process", PrintProcess(p));
    assert "process" + "=" + PrintProcess(p) == ProcessLine(p);
  }

  lemma PrintedLineIsOne(m: SystemMetrics, i: nat)
    requires OneLineTexts(m) && i < |SnapshotLines(m)|
    ensures '\n' !in SnapshotLines(m)[i]
  {
    hide FieldLine, ProcessLine, OneLineTexts;
    if i == 0 {
      assert SnapshotLines(m)[0] == PROTOCOL_VERSION;
    } else if i <= 21 {
      assert SnapshotLines(m)[i] == FieldLine(m, FIELDS[i - 1]);
      FieldLineIsOne(m, FIELDS[i - 1]);
    } else {
      var p := m.topProcesses[i - 22];
      assert SnapshotLines(m)[i] == ProcessLine(p);
      OneLineName(m, p);
      ProcessLineIsOne(p);
    }
  }

  lemma PrintedLinesAreLines(m: SystemMetrics)
    requires OneLineTexts(m)
    ensures NoLineFeed(SnapshotLines(m))
  {
    hide SnapshotLines, OneLineTexts;
    forall line <- SnapshotLines(m)
      ensures '\n' !in line
    {
      var i :| 0 <= i < |SnapshotLines(m)| && SnapshotLines(m)[i] == line;
      PrintedLineIsOne(m, i);
    }
  }

  lemma OneLineName(m: SystemMetrics, p: ProcessMetric)
    requires OneLineTexts(m) && p in m.topProcesses
    ensures '\n' !in p.name
  {
  }

  // ---------------------------------------------------------------------------
  // And each value survives its line
  // ---------------------------------------------------------------------------

  lemma FieldSurvives(lib: NumberLibrary, m: SystemMetrics, f: Field)
    requires FiniteField(m, f) && OneLineTexts(m)
    requires Accepts(lib, BodyRecords(m), RoundedMetrics(m))
    ensures PrintableField(m, f)
  {
    hide Accepts, OneLineTexts, BodyRecords, RoundedMetrics, ValueOf, KindOf, PrintValue, Double.Finite, LineSafe,
         Rounded;
    AcceptedField(lib, BodyRecords(m), RoundedMetrics(m), f);
    RoundedFields(m, f);
    if ValueOf(m, f).TextValue? {
      TextSurvives(lib, m, f);
    } else if ValueOf(m, f).NumberValue? {
      OnlyPositiveRoundsToPositive(ValueOf(m, f).number);
    }
  }

  lemma OnlyPositiveRoundsToPositive(d: Double)
    ensures Rounded(d).Positive() ==> !d.negative && Hundredths(d) > 0
  {
  }

  lemma TextSurvives(lib: NumberLibrary, m: SystemMetrics, f: Field)
    requires ValueOf(m, f).TextValue? && OneLineTexts(m)
    requires Accepts(lib, BodyRecords(m), RoundedMetrics(m))
    ensures LineSafe(ValueOf(m, f).text)
  {
    BodyField(m, f);
    RoundedFields(m, f);
    hide BodyRecords, Accepts, RoundedMetrics, ValueOf, Position, OneLineTexts, LineSafe, StripCr, Name;
    TextIsKept(lib, BodyRecords(m), RoundedMetrics(m), f, Position(f), ValueOf(m, f).text);
  }

  lemma BodyField(m: SystemMetrics, f: Field)
    requires OneLineTexts(m)
    ensures BodyRecords(m)[Position(f)] == ScalarRecord(Name(f), StripCr(PrintValue(ValueOf(m, f))))
  {
    hide Classify, FieldLine, ProcessLine, Name, ValueOf, OneLineTexts, StripCr, PrintValue;
    assert BodyRecords(m)[Position(f)] == Classify(FieldLine(m, f));
    FieldLineIsOne(m, f);
  }

  lemma TextIsKept(lib: NumberLibrary, records: seq<Record>, m: SystemMetrics, f: Field, k: nat, text: string)
    requires Accepts(lib, records, m) && ValueOf(m, f) == TextValue(text)
    requires k < |records| && records[k] == ScalarRecord(Name(f), StripCr(text))
    ensures LineSafe(text)
  {
    AcceptedField(lib, records, m, f);
    GivesField(records[k], f, f, StripCr(text));
    hide ValueOf, Name, FieldNamed, Gives, ProcessesAre, ValidRecord, CountOf, ProcessTexts, ParseUint64, ParseDouble;
    assert records[k] in records;
    assert ParseField(lib, f, StripCr(text)) == Some(TextValue(text));
  }

  lemma ProcessSurvives(lib: NumberLibrary, m: SystemMetrics, i: nat)
    requires FiniteNumbers(m) && OneLineTexts(m) && i < |m.topProcesses|
    requires Accepts(lib, BodyRecords(m), RoundedMetrics(m))
    ensures PrintableProcess(m.topProcesses[i])
  {
    hide Accepts, OneLineTexts, BodyRecords, PrintProcess, ParseProcess, Double.Finite, Rounded, FiniteField;
    var p := m.topProcesses[i];
    assert p in m.topProcesses;
    BodyProcessTexts(m, i);
    AcceptedProcess(lib, BodyRecords(m), RoundedMetrics(m), i);
    var text := StripCr(PrintProcess(p));
    ParsedProcess(lib, text, RoundedProcess(p));
    NumbersAreOneLine(p);
    hide NumbersOf, RoundedMetrics;
    if EndsInCr(p.name) {
      var kept := p.(name := p.name[..|p.name| - 1]);
      NameLosesCr(p);
      NameIsRead(lib, kept, RoundedProcess(p));
    }
  }

  lemma NameLosesCr(p: ProcessMetric)
    requires EndsInCr(p.name)
    ensures StripCr(PrintProcess(p)) == PrintProcess(p.(name := p.name[..|p.name| - 1]))
  {
    hide PrintProcess;
    NumbersAreOneLine(p);
    var kept := p.(name := p.name[..|p.name| - 1]);
    NumbersAreOneLine(kept);
    assert NumbersOf(kept) == NumbersOf(p);
    hide NumbersOf;
  }

  /** The name read from a printed record is the printed name. */
  lemma NameIsRead(lib: NumberLibrary, p: ProcessMetric, q: ProcessMetric)
    requires ParseProcess(lib, PrintProcess(p)) == Some(q)
    ensures q.name == p.name
  {
    ProcessFieldsAreSafe(p.(name := "x"));
    ProcessFieldsJoin(p);
    hide PrintProcess, PrintInt, PrintNat, PrintDouble, SplitCommas, JoinCommas, ParseInt, ParseDouble, ParseUint64,
         LineSafe;
    assert NoCommaBeforeLast(ProcessFields(p)) by {
      assert forall i :: 0 <= i < 4 ==> ProcessFields(p)[i] == ProcessFields(p.(name := "x"))[i];
    }
    SplitUndoesJoin(PrintProcess(p), 4, ProcessFields(p));
  }

  lemma BodyRecordStripped(m: SystemMetrics, j: nat)
    requires OneLineTexts(m) && j < |BodyRecords(m)|
    ensures j < 21 ==> !BodyRecords(m)[j].ProcessRecord?
    ensures j >= 21 ==> BodyRecords(m)[j] == ProcessRecord(StripCr(PrintProcess(m.topProcesses[j - 21])))
  {
    hide Classify, FieldLine, ProcessLine, OneLineTexts, PrintProcess, StripCr;
    if j < 21 {
      assert BodyRecords(m)[j] == Classify(FieldLine(m, FIELDS[j]));
      FieldLineIsOne(m, FIELDS[j]);
    } else {
      var p := m.topProcesses[j - 21];
      assert BodyRecords(m)[j] == Classify(ProcessLine(p));
      OneLineName(m, p);
      ProcessLineIsOne(p);
    }
  }

  lemma BodyProcessTexts(m: SystemMetrics, i: nat)
    requires OneLineTexts(m) && i < |m.topProcesses|
    ensures |ProcessTexts(BodyRecords(m))| == |m.topProcesses|
    ensures ProcessTexts(BodyRecords(m))[i] == StripCr(PrintProcess(m.topProcesses[i]))
  {
    hide BodyRecords, OneLineTexts, PrintProcess, StripCr, ProcessTexts;
    var records := BodyRecords(m);
    forall j | 0 <= j < |records|
      ensures j < 21 ==> !records[j].ProcessRecord?
      ensures j >= 21 ==> records[j] == ProcessRecord(StripCr(PrintProcess(m.topProcesses[j - 21])))
    {
      BodyRecordStripped(m, j);
    }
    TrailingProcessTexts(records, 21);
    assert records[i + 21].text == StripCr(PrintProcess(m.topProcesses[i]));
  }

  // ---------------------------------------------------------------------------
  // The exact condition of the round trip
  // ---------------------------------------------------------------------------

  /** The texts of an accepted snapshot, rounded or not, are lines. */
  lemma AcceptedTexts(lib: NumberLibrary, records: seq<Record>, m: SystemMetrics)
    requires Accepts(lib, records, RoundedMetrics(m))
    ensures OneLineTexts(m)
  {
    hide Accepts;
    var r := RoundedMetrics(m);
    forall f: Field
      ensures ValueOf(m, f).TextValue? ==> '\n' !in ValueOf(m, f).text
    {
      AcceptedField(lib, records, r, f);
      RoundedFields(m, f);
    }
    forall p <- m.topProcesses
      ensures '\n' !in p.name
    {
      var i :| 0 <= i < |m.topProcesses| && m.topProcesses[i] == p;
      AcceptedProcess(lib, records, r, i);
    }
  }

  /** Only printable snapshots come back, with any library. */
  lemma OnlyPrintableComesBack(lib: NumberLibrary, m: SystemMetrics)
    requires FiniteNumbers(m) && Interpret(lib, Unlines(SnapshotLines(m))) == Success(RoundedMetrics(m))
    ensures Printable(m)
  {
    hide Interpret, Unlines, SplitLines, Classify, FieldLines, ProcessLines, RoundedMetrics, Describes, OneLineTexts,
         NoLineFeed, TextHasNoLineFeed, PrintableField, PrintableProcess, FiniteField, Double.Finite;
    var text, r := Unlines(SnapshotLines(m)), RoundedMetrics(m);
    Accepted(lib, text, r);
    var records := ClassifyAll(SplitLines(text)[1..]);
    forall record <- records
      ensures TextHasNoLineFeed(record)
    {
      RecordsOfPayload(text, record);
    }
    assert Accepts(lib, records, r);
    AcceptedTexts(lib, records, m);
    PrintedLinesAreLines(m);
    SplitOfUnlines(SnapshotLines(m));
    assert SnapshotLines(m)[1..] == FieldLines(m) + ProcessLines(m);
    assert records == BodyRecords(m);
    hide Accepts, BodyRecords;
    forall f: Field
      ensures PrintableField(m, f)
    {
      FieldSurvives(lib, m, f);
    }
    forall p <- m.topProcesses
      ensures PrintableProcess(p)
    {
      var i :| 0 <= i < |m.topProcesses| && m.topProcesses[i] == p;
      ProcessSurvives(lib, m, i);
    }
  }

  /** A snapshot with finite numbers comes back rounded from the parser exactly if it is printable. */
  lemma RoundTripExactly(lib: NumberLibrary, m: SystemMetrics)
    requires FiniteNumbers(m) && ReadsPrintedNumbers(lib)
    ensures Interpret(lib, Unlines(SnapshotLines(m))) == Success(RoundedMetrics(m)) <==> Printable(m)
  {
    hide FiniteNumbers, ReadsPrintedNumbers, Interpret, Unlines, SnapshotLines, RoundedMetrics, Printable;
    if Printable(m) {
      PrintThenParse(lib, m);
    }
    if Interpret(lib, Unlines(SnapshotLines(m))) == Success(RoundedMetrics(m)) {
      OnlyPrintableComesBack(lib, m);
    }
  }
}
