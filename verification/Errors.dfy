/** Which error a payload is refused with: that of the first line at fault, and if no line is, that of
    what is missing at the end. */
module Errors {
  import opened Wrappers
  import opened Decimal
  import opened Metrics
  import opened Deserializer
  import opened Acceptance

  predicate HasKey(r: Record, key: string) {
    r.ScalarRecord? && r.key == key
  }

  /** What is wrong with record i, coming after those before it. A duplicate is refused before its value
      is looked at. */
  function FaultOf(lib: NumberLibrary, records: seq<Record>, i: nat): Option<Error>
    requires i < |records|
  {
    match records[i]
    case Blank => None
    case Bad(error) => Some(error)
    case ProcessRecord(text) => if ParseProcess(lib, text).None? then Some(InvalidProcess(text)) else None
    case ScalarRecord(key, text) =>
      if FieldNamed(key).None? then Some(UnknownField(key))
      else if exists j :: 0 <= j < i && HasKey(records[j], key) then Some(DuplicateField(key))
      else if ParseField(lib, FieldNamed(key).value, text).None? then Some(InvalidValue(key))
      else None
  }

  ghost predicate NoFaultBefore(lib: NumberLibrary, records: seq<Record>, n: nat)
    requires n <= |records|
  {
    forall i :: 0 <= i < n ==> FaultOf(lib, records, i).None?
  }

  // ---------------------------------------------------------------------------
  // The lines
  // ---------------------------------------------------------------------------

  lemma {:induction false} ReadAllThen(lib: NumberLibrary, p: Progress, before: seq<Record>, after: seq<Record>)
    requires ReadAll(lib, p, before).Success?
    ensures ReadAll(lib, p, before + after) == ReadAll(lib, ReadAll(lib, p, before).value, after)
    decreases before
  {
    hide Step;
    if before == [] {
      assert before + after == after;
    } else {
      assert (before + after)[0] == before[0] && (before + after)[1..] == before[1..] + after;
      ReadAllThen(lib, Step(lib, p, before[0]).value, before[1..], after);
    }
  }

  /** The progress holds the values of the keys seen. */
  ghost predicate HasSeen(p: Progress, records: seq<Record>, n: nat)
    requires n <= |records|
  {
    forall f: Field :: f in p.values <==> exists j :: 0 <= j < n && HasKey(records[j], Name(f))
  }

  lemma StepFails(lib: NumberLibrary, p: Progress, records: seq<Record>, n: nat)
    requires n < |records| && HasSeen(p, records, n)
    ensures var s := Step(lib, p, records[n]);
            if s.Failure? then FaultOf(lib, records, n) == Some(s.error) else FaultOf(lib, records, n).None?
  {
    hide ParseProcess, ParseField, FieldNamed, Name;
  }

  lemma StepSees(lib: NumberLibrary, p: Progress, records: seq<Record>, n: nat)
    requires n < |records| && HasSeen(p, records, n) && Step(lib, p, records[n]).Success?
    ensures HasSeen(Step(lib, p, records[n]).value, records, n + 1)
  {
    var r, q := records[n], Step(lib, p, records[n]).value;
    forall f: Field
      ensures f in q.values <==> f in p.values || HasKey(r, Name(f))
    {
      NamesAreDistinct(f);
    }
    hide ParseProcess, ParseField, FieldNamed, Name, Step;
  }

  lemma {:induction false} ReadsOn(lib: NumberLibrary, records: seq<Record>, n: nat)
    requires n <= |records| && NoFaultBefore(lib, records, n)
    ensures var r := ReadAll(lib, NOTHING, records[..n]); r.Success? && HasSeen(r.value, records, n)
  {
    hide Step, FaultOf, HasSeen;
    if n == 0 {
      NothingSeen(records);
    } else {
      ReadsOn(lib, records, n - 1);
      var p := ReadAll(lib, NOTHING, records[..n - 1]).value;
      assert records[..n] == records[..n - 1] + [records[n - 1]];
      ReadAllThen(lib, NOTHING, records[..n - 1], [records[n - 1]]);
      StepFails(lib, p, records, n - 1);
      StepSees(lib, p, records, n - 1);
      OneStep(lib, p, records[n - 1]);
    }
  }

  lemma NothingSeen(records: seq<Record>)
    ensures HasSeen(NOTHING, records, 0)
  {
  }

  lemma OneStep(lib: NumberLibrary, p: Progress, r: Record)
    ensures ReadAll(lib, p, [r]) == Step(lib, p, r)
  {
    hide Step;
    var s := Step(lib, p, r);
    if s.Success? {
      assert ReadAll(lib, s.value, []) == Success(s.value);
    }
  }

  /** The loop ends with the error of the first record at fault. */
  lemma FirstFaultEndsTheLoop(lib: NumberLibrary, records: seq<Record>, i: nat)
    requires i < |records| && NoFaultBefore(lib, records, i) && FaultOf(lib, records, i).Some?
    ensures ReadAll(lib, NOTHING, records) == Failure(FaultOf(lib, records, i).value)
  {
    ReadsOn(lib, records, i);
    hide Step, FaultOf, HasSeen;
    var p := ReadAll(lib, NOTHING, records[..i]).value;
    StepFails(lib, p, records, i);
    ReadAllThen(lib, NOTHING, records[..i], records[i..]);
    assert records == records[..i] + records[i..];
  }

  lemma NoFaultNoError(lib: NumberLibrary, records: seq<Record>)
    requires NoFaultBefore(lib, records, |records|)
    ensures ReadAll(lib, NOTHING, records).Success?
  {
    ReadsOn(lib, records, |records|);
    assert records[..|records|] == records;
  }

  // ---------------------------------------------------------------------------
  // The end
  // ---------------------------------------------------------------------------

  predicate IsMissing(records: seq<Record>, f: Field) {
    forall r <- records :: !Gives(r, f)
  }

  ghost predicate SomeFieldIsMissing(records: seq<Record>) {
    exists f: Field :: IsMissing(records, f)
  }

  /** The process count given is not the number of process records. */
  ghost predicate CountIsOff(lib: NumberLibrary, records: seq<Record>) {
    exists r <- records ::
      r.ScalarRecord? && r.key == "process_count"
      && ParseUint64(lib, r.text) != Some(|ProcessTexts(records)|)
  }

  /** The loop got through: what is missing at the end, if anything. */
  lemma EndsWith(lib: NumberLibrary, records: seq<Record>)
    requires ReadAll(lib, NOTHING, records).Success?
    ensures var r := Finish(ReadAll(lib, NOTHING, records).value);
            && (r == Failure(MissingField) <==> SomeFieldIsMissing(records))
            && (r == Failure(ProcessCountMismatch) <==> !SomeFieldIsMissing(records) && CountIsOff(lib, records))
            && (r.Failure? ==> r.error.MissingField? || r.error.ProcessCountMismatch?)
  {
    var q := ReadAll(lib, NOTHING, records).value;
    FoldReaches(lib, NOTHING, records);
    hide ReadAll, ParseProcess, ParseUint64, Build, FieldNamed, WellKinded;
    forall f: Field
      ensures f in q.values <==> !IsMissing(records, f)
    {
      GivenIsCounted(records, f);
    }
    if ProcessCount in q.values {
      CountIsGiven(lib, records, q);
    }
  }

  lemma GivenIsCounted(records: seq<Record>, f: Field)
    ensures CountOf(records, f) > 0 <==> !IsMissing(records, f)
  {
    if CountOf(records, f) > 0 {
      var r := FieldIsGiven(records, f);
    }
    if r :| r in records && Gives(r, f) {
      GivenCounts(records, f, r);
    }
  }

  lemma {:induction false} GivenCounts(records: seq<Record>, f: Field, r: Record)
    requires r in records && Gives(r, f)
    ensures CountOf(records, f) > 0
  {
    if r != records[0] {
      GivenCounts(records[1..], f, r);
    }
  }

  lemma CountIsGiven(lib: NumberLibrary, records: seq<Record>, q: Progress)
    requires Reached(lib, NOTHING, records, q) && ProcessCount in q.values
    ensures CountIsOff(lib, records) <==> q.values[ProcessCount] != CountValue(|q.processes|)
  {
    GivenIsCounted(records, ProcessCount);
    NamesAreDistinct(ProcessCount);
    hide ParseProcess, ParseUint64, FieldNamed, WellKinded, CountOf, ProcessTexts;
    assert |ProcessTexts(records)| == |q.processes|;
    forall r <- records
      ensures Gives(r, ProcessCount) <==> HasKey(r, "process_count")
      ensures Gives(r, ProcessCount) ==>
                (ParseUint64(lib, r.text) != Some(|ProcessTexts(records)|)
                 <==> q.values[ProcessCount] != CountValue(|q.processes|))
    {
    }
  }

  // ---------------------------------------------------------------------------
  // The whole payload
  // ---------------------------------------------------------------------------

  /** Exactly when a payload is refused, and with which error. */
  lemma ErrorExactly(lib: NumberLibrary, payload: string, e: Error)
    ensures var lines := SplitLines(payload);
            Interpret(lib, payload) == Failure(e)
            <==> if lines == [] then e == EmptyPayload
                 else if StripCr(lines[0]) != "LMONITOR/1" then e == UnsupportedVersion(StripCr(lines[0]))
                 else RefusedWith(lib, ClassifyAll(lines[1..]), e)
  {
    hide SplitLines, StripCr, ReadAll, ClassifyAll, RefusedWith, Finish;
    var lines := SplitLines(payload);
    if lines != [] {
      RefusedExactly(lib, ClassifyAll(lines[1..]), e);
    }
  }

  /** The first record at fault decides; if none is, a missing field, or else a wrong count. */
  ghost predicate RefusedWith(lib: NumberLibrary, records: seq<Record>, e: Error) {
    || (exists i: nat :: i < |records| && NoFaultBefore(lib, records, i) && FaultOf(lib, records, i) == Some(e))
    || (&& NoFaultBefore(lib, records, |records|)
        && if SomeFieldIsMissing(records) then e == MissingField
           else CountIsOff(lib, records) && e == ProcessCountMismatch)
  }

  lemma RefusedExactly(lib: NumberLibrary, records: seq<Record>, e: Error)
    ensures var p := ReadAll(lib, NOTHING, records);
            (if p.Failure? then p.error == e else Finish(p.value) == Failure(e)) <==> RefusedWith(lib, records, e)
  {
    hide ReadAll, FaultOf, Finish, SomeFieldIsMissing, CountIsOff;
    if NoFaultBefore(lib, records, |records|) {
      NoFaultNoError(lib, records);
      EndsWith(lib, records);
    } else {
      var i := FirstFault(lib, records, |records|);
      FirstFaultEndsTheLoop(lib, records, i);
    }
  }

  lemma {:induction false} FirstFault(lib: NumberLibrary, records: seq<Record>, n: nat) returns (i: nat)
    requires n <= |records| && !NoFaultBefore(lib, records, n)
    ensures i < n && NoFaultBefore(lib, records, i) && FaultOf(lib, records, i).Some?
  {
    hide FaultOf;
    if NoFaultBefore(lib, records, n - 1) {
      i := n - 1;
    } else {
      i := FirstFault(lib, records, n - 1);
    }
  }
}
