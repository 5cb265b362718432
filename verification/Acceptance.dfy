/** Which payloads the parser accepts, said without reference to how it reads them, and what
    follows for payloads whose lines are reordered, spaced out or ended by CRLF. */
module Acceptance {
  import opened Wrappers
  import opened Decimal
  import opened Metrics
  import opened Serializer
  import opened Deserializer

  predicate Gives(r: Record, f: Field) {
    r.ScalarRecord? && FieldNamed(r.key) == Some(f)
  }

  /** How many records give field f. */
  function CountOf(records: seq<Record>, f: Field): nat {
    if records == [] then 0 else (if Gives(records[0], f) then 1 else 0) + CountOf(records[1..], f)
  }

  /** The `process` records, in order. */
  function ProcessTexts(records: seq<Record>): seq<string> {
    if records == [] then []
    else (if records[0].ProcessRecord? then [records[0].text] else []) + ProcessTexts(records[1..])
  }

  predicate ValidRecord(lib: NumberLibrary, r: Record) {
    match r
    case Blank => true
    case Bad(_) => false
    case ProcessRecord(text) => ParseProcess(lib, text).Some?
    case ScalarRecord(key, text) => FieldNamed(key).Some? && ParseField(lib, FieldNamed(key).value, text).Some?
  }

  ghost predicate ProcessesAre(lib: NumberLibrary, texts: seq<string>, processes: seq<ProcessMetric>) {
    && |texts| == |processes|
    && forall i :: 0 <= i < |texts| ==> ParseProcess(lib, texts[i]) == Some(processes[i])
  }

  /** The records are all valid, give each of the 21 fields exactly once, and say of every field,
      the number of processes included, what m says. */
  ghost predicate Describes(lib: NumberLibrary, records: seq<Record>, m: SystemMetrics) {
    && (forall r <- records :: ValidRecord(lib, r))
    && (forall f: Field :: CountOf(records, f) == 1)
    && (forall r <- records, f: Field :: Gives(r, f) ==> ParseField(lib, f, r.text) == Some(ValueOf(m, f)))
    && ProcessesAre(lib, ProcessTexts(records), m.topProcesses)
  }

  // ---------------------------------------------------------------------------
  // The fold over records
  // ---------------------------------------------------------------------------

  ghost predicate Room(values: map<Field, Value>, records: seq<Record>) {
    forall f: Field :: CountOf(records, f) + (if f in values then 1 else 0) <= 1
  }

  ghost predicate Reached(lib: NumberLibrary, p: Progress, records: seq<Record>, q: Progress) {
    && WellKinded(q.values)
    && (forall f: Field :: f in q.values <==> f in p.values || CountOf(records, f) > 0)
    && (forall f <- p.values :: f in q.values && q.values[f] == p.values[f])
    && (forall r <- records, f: Field :: Gives(r, f) ==>
          f in q.values && ParseField(lib, f, r.text) == Some(q.values[f]))
    && p.processes <= q.processes
    && ProcessesAre(lib, ProcessTexts(records), q.processes[|p.processes|..])
  }

  lemma CountFirst(records: seq<Record>, f: Field)
    requires records != []
    ensures CountOf(records, f) == (if Gives(records[0], f) then 1 else 0) + CountOf(records[1..], f)
  {
  }

  lemma RoomAfterStep(lib: NumberLibrary, p: Progress, records: seq<Record>)
    requires records != [] && Step(lib, p, records[0]).Success?
    ensures Room(p.values, records) <==> Room(Step(lib, p, records[0]).value.values, records[1..])
  {
    hide ParseField, ParseProcess, FieldNamed, CountOf;
    var q := Step(lib, p, records[0]).value;
    forall f: Field
      ensures CountOf(records, f) + (if f in p.values then 1 else 0)
              == CountOf(records[1..], f) + (if f in q.values then 1 else 0)
    {
      CountFirst(records, f);
    }
  }

  /** The fold succeeds exactly on valid records that leave room for each other. */
  lemma {:induction false} FoldSucceeds(lib: NumberLibrary, p: Progress, records: seq<Record>)
    ensures ReadAll(lib, p, records).Success?
            <==> (forall r <- records :: ValidRecord(lib, r)) && Room(p.values, records)
    decreases records
  {
    hide ParseField, ParseProcess, FieldNamed, Room;
    if records == [] {
      NoRecords(p.values);
    } else {
      var r, tail := records[0], records[1..];
      var s := Step(lib, p, r);
      assert forall x :: x in records <==> x == r || x in tail;
      if s.Success? {
        FoldSucceeds(lib, s.value, tail);
        RoomAfterStep(lib, p, records);
      } else if ValidRecord(lib, r) {
        NoRoom(p.values, records, FieldNamed(r.key).value);
      }
    }
  }

  lemma NoRecords(values: map<Field, Value>)
    ensures Room(values, [])
  {
  }

  lemma NoRoom(values: map<Field, Value>, records: seq<Record>, f: Field)
    requires records != [] && Gives(records[0], f) && f in values
    ensures !Room(values, records)
  {
    CountFirst(records, f);
    assert CountOf(records, f) + 1 > 1;
  }

  lemma {:induction false} FoldReaches(lib: NumberLibrary, p: Progress, records: seq<Record>)
    requires WellKinded(p.values) && ReadAll(lib, p, records).Success?
    ensures Reached(lib, p, records, ReadAll(lib, p, records).value)
    decreases records
  {
    hide ParseField, ParseProcess, FieldNamed, Reached;
    if records == [] {
      ReachedNothing(lib, p);
    } else {
      var p1 := Step(lib, p, records[0]).value;
      StepIsWellKinded(lib, p, records[0]);
      FoldReaches(lib, p1, records[1..]);
      ReachedOneMore(lib, p, records, ReadAll(lib, p1, records[1..]).value);
    }
  }

  lemma ReachedNothing(lib: NumberLibrary, p: Progress)
    requires WellKinded(p.values)
    ensures Reached(lib, p, [], p)
  {
  }

  lemma StepIsWellKinded(lib: NumberLibrary, p: Progress, r: Record)
    requires WellKinded(p.values) && Step(lib, p, r).Success?
    ensures WellKinded(Step(lib, p, r).value.values)
  {
    hide ParseField, ParseProcess, FieldNamed, HasKind;
  }

  lemma ReachedOneMore(lib: NumberLibrary, p: Progress, records: seq<Record>, q: Progress)
    requires records != [] && Step(lib, p, records[0]).Success?
    requires Reached(lib, Step(lib, p, records[0]).value, records[1..], q)
    ensures Reached(lib, p, records, q)
  {
    hide ParseField, ParseProcess, FieldNamed, WellKinded, CountOf, ProcessesAre, ProcessTexts;
    var r, tail := records[0], records[1..];
    assert forall x :: x in records <==> x == r || x in tail;
    forall f: Field
      ensures f in q.values <==> f in p.values || CountOf(records, f) > 0
    {
      CountFirst(records, f);
    }
    ProcessesOneMore(lib, p, records, q);
  }

  lemma ProcessesOneMore(lib: NumberLibrary, p: Progress, records: seq<Record>, q: Progress)
    requires records != [] && Step(lib, p, records[0]).Success?
    requires var p1 := Step(lib, p, records[0]).value;
             && p1.processes <= q.processes
             && ProcessesAre(lib, ProcessTexts(records[1..]), q.processes[|p1.processes|..])
    ensures p.processes <= q.processes
    ensures ProcessesAre(lib, ProcessTexts(records), q.processes[|p.processes|..])
  {
    hide ParseField, ParseProcess, FieldNamed, ProcessesAre;
    var p1, n := Step(lib, p, records[0]).value, |p.processes|;
    if records[0].ProcessRecord? {
      var process := p1.processes[n];
      ProcessesAreCons(lib, records[0].text, ProcessTexts(records[1..]), process, q.processes[n + 1..]);
      assert q.processes[n..] == [process] + q.processes[n + 1..];
    } else {
      assert ProcessTexts(records) == ProcessTexts(records[1..]);
    }
  }

  lemma ProcessesAreCons(
    lib: NumberLibrary, text: string, texts: seq<string>, process: ProcessMetric, processes: seq<ProcessMetric>)
    requires ParseProcess(lib, text) == Some(process) && ProcessesAre(lib, texts, processes)
    ensures ProcessesAre(lib, [text] + texts, [process] + processes)
  {
    hide ParseProcess;
  }

  // ---------------------------------------------------------------------------
  // Acceptance
  // ---------------------------------------------------------------------------

  /** Acceptance, on records. */
  lemma RecordsAccepted(lib: NumberLibrary, records: seq<Record>, m: SystemMetrics)
    ensures var p := ReadAll(lib, NOTHING, records);
            (p.Success? && Finish(p.value) == Success(m)) <==> Describes(lib, records, m)
  {
    hide Build, ValueOf, ParseField, ParseProcess, FieldNamed, Gives, KindOf, HasKind, CountOf;
    var p := ReadAll(lib, NOTHING, records);
    FoldSucceeds(lib, NOTHING, records);
    if p.Success? {
      FoldReaches(lib, NOTHING, records);
      FinishDescribes(lib, records, p.value, m);
    }
  }

  lemma {:induction false} FieldIsGiven(records: seq<Record>, f: Field) returns (r: Record)
    requires CountOf(records, f) > 0
    ensures r in records && Gives(r, f)
  {
    if Gives(records[0], f) {
      r := records[0];
    } else {
      r := FieldIsGiven(records[1..], f);
    }
  }

  lemma FinishDescribes(lib: NumberLibrary, records: seq<Record>, q: Progress, m: SystemMetrics)
    requires forall r <- records :: ValidRecord(lib, r)
    requires Room(map[], records) && Reached(lib, NOTHING, records, q)
    ensures Finish(q) == Success(m) <==> Describes(lib, records, m)
  {
    hide Build, ValueOf, ParseField, ParseProcess, FieldNamed, Gives, KindOf, HasKind, CountOf, ValidRecord,
         ProcessTexts;
    assert q.processes[0..] == q.processes;
    if Finish(q) == Success(m) {
      FinishedValues(q);
    } else if Describes(lib, records, m) {
      forall f: Field
        ensures f in q.values && q.values[f] == ValueOf(m, f)
      {
        assert CountOf(records, f) == 1;
        var r := FieldIsGiven(records, f);
      }
      ProcessesAreDetermined(lib, ProcessTexts(records), q.processes, m.topProcesses);
      FinishedIs(q, m);
    }
  }

  lemma ProcessesAreDetermined(lib: NumberLibrary, texts: seq<string>, p1: seq<ProcessMetric>, p2: seq<ProcessMetric>)
    requires ProcessesAre(lib, texts, p1) && ProcessesAre(lib, texts, p2)
    ensures p1 == p2
  {
    hide ParseProcess;
    forall i | 0 <= i < |texts|
      ensures p1[i] == p2[i]
    {
      assert ParseProcess(lib, texts[i]) == Some(p1[i]) == Some(p2[i]);
    }
  }

  lemma FinishedValues(q: Progress)
    requires Finish(q).Success? && WellKinded(q.values)
    ensures var m := Finish(q).value;
            m.topProcesses == q.processes && forall f: Field :: f in q.values && q.values[f] == ValueOf(m, f)
  {
    hide KindOf, HasKind, TextAt, CountAt, NumberAt;
    var m := Build(q);
    forall f: Field
      ensures f in q.values && q.values[f] == ValueOf(m, f)
    {
      if f != ProcessCount {
        hide Build, ValueOf;
        BuildHasTheValues(q, f);
      }
    }
  }

  lemma FinishedIs(q: Progress, m: SystemMetrics)
    requires WellKinded(q.values)
    requires forall f: Field :: f in q.values && q.values[f] == ValueOf(m, f)
    requires q.processes == m.topProcesses
    ensures Finish(q) == Success(m)
  {
    hide KindOf, HasKind, TextAt, CountAt, NumberAt;
    assert q.values[ProcessCount] == ValueOf(m, ProcessCount) == CountValue(|m.topProcesses|);
    assert Finish(q).Success?;
    FinishedValues(q);
    hide Build, ValueOf, Finish;
    SnapshotIsItsFields(Finish(q).value, m);
  }

  /** A payload is accepted, with result m, exactly when its first line is the version and the
      rest of its lines describe m. */
  lemma Accepted(lib: NumberLibrary, payload: string, m: SystemMetrics)
    ensures Interpret(lib, payload) == Success(m)
            <==> var lines := SplitLines(payload);
                 && lines != [] && StripCr(lines[0]) == PROTOCOL_VERSION
                 && Describes(lib, ClassifyAll(lines[1..]), m)
  {
    hide ReadAll, Finish, Describes, SplitLines, ClassifyAll, StripCr;
    var lines := SplitLines(payload);
    if lines != [] {
      RecordsAccepted(lib, ClassifyAll(lines[1..]), m);
    }
  }

  // ---------------------------------------------------------------------------
  // Order, blank lines, line endings
  // ---------------------------------------------------------------------------

  /** The records that are neither blank nor about a process. */
  function Others(records: seq<Record>): seq<Record> {
    if records == [] then []
    else (if records[0].Blank? || records[0].ProcessRecord? then [] else [records[0]]) + Others(records[1..])
  }

  /** The same records but for blank lines and for order, processes being in the same order. */
  ghost predicate SameRecords(a: seq<Record>, b: seq<Record>) {
    ProcessTexts(a) == ProcessTexts(b) && multiset(Others(a)) == multiset(Others(b))
  }

  lemma {:induction false} OthersCount(records: seq<Record>, f: Field)
    ensures CountOf(Others(records), f) == CountOf(records, f)
  {
    if records != [] {
      OthersCount(records[1..], f);
      if !records[0].Blank? && !records[0].ProcessRecord? {
        assert Others(records)[1..] == Others(records[1..]);
      } else {
        assert Others(records) == Others(records[1..]);
      }
    }
  }

  lemma {:induction false} OthersMember(records: seq<Record>, r: Record)
    ensures r in Others(records) <==> r in records && !r.Blank? && !r.ProcessRecord?
    ensures r.ProcessRecord? ==> (r in records <==> r.text in ProcessTexts(records))
  {
    if records != [] {
      OthersMember(records[1..], r);
      assert r in records <==> r == records[0] || r in records[1..];
    }
  }

  lemma {:induction false} CountWithout(records: seq<Record>, i: nat, f: Field)
    requires i < |records|
    ensures CountOf(records, f) == (if Gives(records[i], f) then 1 else 0) + CountOf(records[..i] + records[i + 1..], f)
  {
    var rest := records[..i] + records[i + 1..];
    if i == 0 {
      assert rest == records[1..];
    } else {
      CountWithout(records[1..], i - 1, f);
      assert rest[1..] == records[1..][..i - 1] + records[1..][i..];
      CountFirst(rest, f);
    }
  }

  lemma TakeOut(records: seq<Record>, i: nat)
    requires i < |records|
    ensures multiset(records[..i] + records[i + 1..]) == multiset(records) - multiset{records[i]}
  {
    assert records == records[..i] + [records[i]] + records[i + 1..];
  }

  lemma TakeHead(records: seq<Record>)
    requires records != []
    ensures multiset(records[1..]) == multiset(records) - multiset{records[0]}
  {
    assert records == [records[0]] + records[1..];
  }

  lemma PlaceIn(records: seq<Record>, r: Record) returns (i: nat)
    requires r in multiset(records)
    ensures i < |records| && records[i] == r
  {
    i :| i < |records| && records[i] == r;
  }

  lemma FirstAmong(a: seq<Record>, b: seq<Record>) returns (i: nat)
    requires a != [] && multiset(a) == multiset(b)
    ensures i < |b| && b[i] == a[0] && multiset(a[1..]) == multiset(b[..i] + b[i + 1..])
  {
    assert a[0] in multiset(a);
    i := PlaceIn(b, a[0]);
    TakeHead(a);
    TakeOut(b, i);
  }

  lemma {:induction false} CountIsUnordered(a: seq<Record>, b: seq<Record>, f: Field)
    requires multiset(a) == multiset(b)
    ensures CountOf(a, f) == CountOf(b, f)
    decreases |a|
  {
    hide CountOf, Gives;
    if a == [] {
      assert |multiset(b)| == 0;
      assert b == a;
    } else {
      var i := FirstAmong(a, b);
      var rest := b[..i] + b[i + 1..];
      CountIsUnordered(a[1..], rest, f);
      CountFirst(a, f);
      CountWithout(b, i, f);
    }
  }

  lemma SameRecordsDescribe(lib: NumberLibrary, a: seq<Record>, b: seq<Record>, m: SystemMetrics)
    requires SameRecords(a, b) && Describes(lib, a, m)
    ensures Describes(lib, b, m)
  {
    hide ParseField, ParseProcess, FieldNamed, ValueOf, Others, ProcessTexts, CountOf;
    forall r <- b
      ensures ValidRecord(lib, r)
      ensures forall f: Field :: Gives(r, f) ==> ParseField(lib, f, r.text) == Some(ValueOf(m, f))
    {
      OthersMember(a, r);
      OthersMember(b, r);
      if !r.Blank? && !r.ProcessRecord? {
        assert r in multiset(Others(b));
      }
    }
    forall f: Field
      ensures CountOf(b, f) == 1
    {
      OthersCount(a, f);
      OthersCount(b, f);
      CountIsUnordered(Others(a), Others(b), f);
      assert CountOf(a, f) == 1;
    }
  }

  ghost predicate NoLineFeed(lines: seq<string>) {
    forall line <- lines :: '\n' !in line
  }

  lemma {:induction false} SplitOfUnlines(lines: seq<string>)
    requires NoLineFeed(lines)
    ensures SplitLines(Unlines(lines)) == lines
  {
    if lines == [] {
      NoLines();
      assert Unlines([]) == "";
    } else {
      var head, tail := lines[0], lines[1..];
      assert lines == [head] + tail;
      UnlinesHead(head, tail);
      var text := Unlines(lines);
      assert text[..|head|] == head && text[|head| + 1..] == Unlines(tail);
      IndexOfIs(text, '\n', |head|);
      FirstLine(text);
      SplitOfUnlines(tail);
    }
  }

  /** Payloads with the same version and the same records, in any order that keeps the processes in
      theirs and with any blank lines, mean the same. */
  lemma OrderIndependence(lib: NumberLibrary, p: string, q: string, m: SystemMetrics)
    requires var a, b := SplitLines(p), SplitLines(q);
             && a != [] && b != [] && StripCr(a[0]) == StripCr(b[0])
             && SameRecords(ClassifyAll(a[1..]), ClassifyAll(b[1..]))
    ensures Interpret(lib, p) == Success(m) <==> Interpret(lib, q) == Success(m)
  {
    hide Describes, SameRecords, SplitLines, ClassifyAll, StripCr, Interpret;
    var recordsP, recordsQ := ClassifyAll(SplitLines(p)[1..]), ClassifyAll(SplitLines(q)[1..]);
    Accepted(lib, p, m);
    Accepted(lib, q, m);
    SameRecordsSymmetric(recordsP, recordsQ);
    if Describes(lib, recordsP, m) {
      SameRecordsDescribe(lib, recordsP, recordsQ, m);
    } else if Describes(lib, recordsQ, m) {
      SameRecordsDescribe(lib, recordsQ, recordsP, m);
    }
  }

  lemma SameRecordsSymmetric(a: seq<Record>, b: seq<Record>)
    requires SameRecords(a, b)
    ensures SameRecords(b, a)
  {
  }

  predicate EndsInCr(line: string) {
    line != "" && line[|line| - 1] == '\r'
  }

  /** Every LF replaced by CR LF. */
  function ToCrlf(payload: string): string
    decreases |payload|
  {
    var i := IndexOf(payload, '\n');
    if i == |payload| then payload else payload[..i] + "\r\n" + ToCrlf(payload[i + 1..])
  }

  lemma CrlfStep(payload: string)
    requires IndexOf(payload, '\n') < |payload|
    ensures var i := IndexOf(payload, '\n');
            && SplitLines(payload) == [payload[..i]] + SplitLines(payload[i + 1..])
            && SplitLines(ToCrlf(payload)) == [payload[..i] + "\r"] + SplitLines(ToCrlf(payload[i + 1..]))
            && (!EndsInCr(payload[..i]) ==> StripCr(payload[..i] + "\r") == StripCr(payload[..i]))
  {
    var i := IndexOf(payload, '\n');
    var line, rest := payload[..i], ToCrlf(payload[i + 1..]);
    assert ToCrlf(payload) == line + "\r\n" + rest;
    hide SplitLines, ToCrlf, StripCr, IndexOf;
    CrlfFirstLine(line, rest);
    FirstLine(payload);
  }

  lemma {:induction false} CrlfLines(payload: string)
    requires forall line <- SplitLines(payload) :: !EndsInCr(line)
    ensures |SplitLines(ToCrlf(payload))| == |SplitLines(payload)|
    ensures forall i :: 0 <= i < |SplitLines(payload)| ==>
              StripCr(SplitLines(ToCrlf(payload))[i]) == StripCr(SplitLines(payload)[i])
    decreases |payload|
  {
    hide SplitLines, StripCr, IndexOf, EndsInCr;
    var i := IndexOf(payload, '\n');
    if i < |payload| {
      hide ToCrlf;
      var line, lines := payload[..i], SplitLines(payload[i + 1..]);
      CrlfStep(payload);
      assert line in SplitLines(payload) by { assert SplitLines(payload)[0] == line; }
      forall l <- lines
        ensures !EndsInCr(l)
      {
        assert l in SplitLines(payload);
      }
      CrlfLines(payload[i + 1..]);
    }
  }

  lemma CrlfFirstLine(line: string, rest: string)
    requires '\n' !in line
    ensures SplitLines(line + "\r\n" + rest) == [line + "\r"] + SplitLines(rest)
    ensures !EndsInCr(line) ==> StripCr(line + "\r") == StripCr(line)
  {
    var text := line + "\r\n" + rest;
    var i := |line| + 1;
    assert text[..i] == line + "\r" && text[i + 1..] == rest;
    IndexOfIs(text, '\n', i);
    FirstLine(text);
  }

  /** Payloads whose lines agree but for a carriage return at their end mean the same, errors included:
      LF and CRLF may be mixed at will. */
  lemma LineEndingsAreEquivalent(lib: NumberLibrary, p: string, q: string)
    requires var a, b := SplitLines(p), SplitLines(q);
             |a| == |b| && forall i :: 0 <= i < |a| ==> StripCr(a[i]) == StripCr(b[i])
    ensures Interpret(lib, p) == Interpret(lib, q)
  {
    hide SplitLines, StripCr, ReadAll, Finish;
    var a, b := SplitLines(p), SplitLines(q);
    if a != [] {
      assert ClassifyAll(a[1..]) == ClassifyAll(b[1..]);
    }
  }

  /** In particular every LF may be replaced by CR LF. */
  lemma CrlfIsEquivalent(lib: NumberLibrary, payload: string)
    requires forall line <- SplitLines(payload) :: !EndsInCr(line)
    ensures Interpret(lib, ToCrlf(payload)) == Interpret(lib, payload)
  {
    hide SplitLines, ToCrlf, StripCr, Interpret;
    CrlfLines(payload);
    LineEndingsAreEquivalent(lib, ToCrlf(payload), payload);
  }
}
