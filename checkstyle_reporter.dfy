/**
 * `CheckstyleJSHintReporter`: writes the Errors of every file as a
 * Checkstyle XML report through a StAX stream writer. The writer is an
 * event sink; the report's intended document is a tree of elements, and
 * what the reporter writes is that tree's serialisation, cut short where
 * a finding has no code or the output stops accepting events.
 */
module CheckstyleReporter {
  import opened JavaLang
  import opened Errors

  /** The calls made on the `XMLStreamWriter`. */
  datatype XmlEvent =
    | StartDocument(encoding: string, version: string)
    | StartElement(name: string)
    | Attribute(name: string, value: JString)
    | EndElement

  const ReportVersion: string := "7.1.2"
  const WriteFailure: Exception := WrappedMojo("Error writing checkstyle report output")

  /** JSHint codes are `E…` (errors) or `W…` (warnings); anything not starting with `E` is a warning. */
  function Severity(code: string): (s: string)
    ensures s == "error" || s == "warning"
    ensures s == "error" <==> StartsWith(code, "E")
  {
    if StartsWith(code, "E") then "error" else "warning"
  }

  /** The severity written for a possibly missing code; a missing code is never reached (see `ErrorPlan`). */
  function SeverityOf(code: JString): string {
    if code.Some? then Severity(code.value) else "warning"
  }

  // ---------------------------------------------------------------------
  // The intended document

  datatype ErrorElement = ErrorElement(line: string, column: string, severity: string, message: JString)
  datatype FileElement = FileElement(name: string, errors: seq<ErrorElement>)
  datatype CheckstyleElement = CheckstyleElement(version: string, files: seq<FileElement>)

  function ErrorElementOf(e: Error): (el: ErrorElement)
    ensures el.line == DecimalString(e.line as int) && el.column == DecimalString(e.character as int)
    ensures el.message == e.reason
    ensures e.code.Some? ==> (el.severity == "error" <==> StartsWith(e.code.value, "E"))
  {
    ErrorElement(DecimalString(e.line as int), DecimalString(e.character as int), SeverityOf(e.code), e.reason)
  }

  function ErrorElements(errors: seq<Error>): (els: seq<ErrorElement>)
    ensures |els| == |errors| && forall k :: 0 <= k < |errors| ==> els[k] == ErrorElementOf(errors[k])
  {
    seq(|errors|, k requires 0 <= k < |errors| => ErrorElementOf(errors[k]))
  }

  /** One `file` element per map entry, in iteration order, each with one `error` element per Error, in list order. */
  function ReportDocument(errorsByFile: seq<(string, seq<Error>)>): (doc: CheckstyleElement)
    ensures doc.version == ReportVersion && |doc.files| == |errorsByFile|
    ensures forall k :: 0 <= k < |errorsByFile| ==>
      doc.files[k].name == errorsByFile[k].0 && |doc.files[k].errors| == |errorsByFile[k].1|
  {
    CheckstyleElement(ReportVersion,
      seq(|errorsByFile|, k requires 0 <= k < |errorsByFile| =>
        FileElement(errorsByFile[k].0, ErrorElements(errorsByFile[k].1))))
  }

  function SerializeError(el: ErrorElement): seq<XmlEvent> {
    [StartElement("error"), Attribute("line", Some(el.line)), Attribute("column", Some(el.column)),
     Attribute("severity", Some(el.severity)), Attribute("message", el.message), EndElement]
  }

  function SerializeErrors(els: seq<ErrorElement>): seq<XmlEvent> {
    if els == [] then [] else SerializeError(els[0]) + SerializeErrors(els[1..])
  }

  function SerializeFile(f: FileElement): seq<XmlEvent> {
    [StartElement("file"), Attribute("name", Some(f.name))] + SerializeErrors(f.errors) + [EndElement]
  }

  function SerializeFiles(fs: seq<FileElement>): seq<XmlEvent> {
    if fs == [] then [] else SerializeFile(fs[0]) + SerializeFiles(fs[1..])
  }

  /** The whole document as the writer receives it (no `writeEndDocument` follows). */
  function SerializeReport(doc: CheckstyleElement): seq<XmlEvent> {
    [StartDocument("UTF-8", "1.0"), StartElement("checkstyle"), Attribute("version", Some(doc.version))] +
    SerializeFiles(doc.files) + [EndElement]
  }

  // ---------------------------------------------------------------------
  // What `generateReport` does, step by step

  /** One step of `generateReport`: a writer call, or `error.getCode().startsWith("E")`, which throws on a null code. */
  datatype Action = Emit(event: XmlEvent) | CheckCode(code: JString)

  /** What happened: the events the output accepted, and what was thrown. */
  datatype Outcome = Outcome(written: seq<XmlEvent>, thrown: Option<Exception>)

  function Then(prefix: seq<XmlEvent>, o: Outcome): Outcome {
    Outcome(prefix + o.written, o.thrown)
  }

  /** Writer calls only. */
  function Emits(events: seq<XmlEvent>): (plan: seq<Action>)
    ensures |plan| == |events| && forall k :: 0 <= k < |events| ==> plan[k] == Emit(events[k])
  {
    seq(|events|, k requires 0 <= k < |events| => Emit(events[k]))
  }

  /** The loop body for one Error: start, `line` and `column`, the code check, then `severity`, `message`, end. */
  function ErrorPlan(e: Error): seq<Action> {
    Emits([StartElement("error"),
           Attribute("line", Some(DecimalString(e.line as int))),
           Attribute("column", Some(DecimalString(e.character as int)))]) +
    [CheckCode(e.code)] +
    Emits([Attribute("severity", Some(SeverityOf(e.code))),
           Attribute("message", e.reason),
           EndElement])
  }

  function ErrorsPlan(errors: seq<Error>): seq<Action> {
    if errors == [] then [] else ErrorPlan(errors[0]) + ErrorsPlan(errors[1..])
  }

  function FilePlan(filePath: string, errors: seq<Error>): seq<Action> {
    Emits([StartElement("file"), Attribute("name", Some(filePath))]) + ErrorsPlan(errors) + Emits([EndElement])
  }

  function FilesPlan(errorsByFile: seq<(string, seq<Error>)>): seq<Action> {
    if errorsByFile == [] then [] else FilePlan(errorsByFile[0].0, errorsByFile[0].1) + FilesPlan(errorsByFile[1..])
  }

  function ReportPlan(errorsByFile: seq<(string, seq<Error>)>): seq<Action> {
    Emits([StartDocument("UTF-8", "1.0"), StartElement("checkstyle"), Attribute("version", Some(ReportVersion))]) +
    FilesPlan(errorsByFile) + Emits([EndElement])
  }

  /**
   * Carrying out the steps on an output with room for `room` more events:
   * the first missing code throws a `NullPointerException`, the first
   * event that does not fit makes the writer fail.
   */
  function Run(plan: seq<Action>, room: nat): Outcome
    decreases |plan|
  {
    if plan == [] then Outcome([], None)
    else match plan[0]
      case Emit(e) =>
        if room == 0 then Outcome([], Some(WriteFailure)) else Then([e], Run(plan[1..], room - 1))
      case CheckCode(code) =>
        if code.None? then Outcome([], Some(NullPointerException)) else Run(plan[1..], room)
  }

  /** The events of a plan, whether or not they get written. */
  function Emitted(plan: seq<Action>): seq<XmlEvent> {
    if plan == [] then [] else EventsOf(plan[0]) + Emitted(plan[1..])
  }

  function EventsOf(a: Action): seq<XmlEvent> {
    if a.Emit? then [a.event] else []
  }

  predicate NoMissingCode(plan: seq<Action>) {
    forall k :: 0 <= k < |plan| ==> plan[k] != CheckCode(None)
  }

  lemma EmittedCons(plan: seq<Action>)
    requires plan != []
    ensures Emitted(plan) == EventsOf(plan[0]) + Emitted(plan[1..])
  {
  }

  /** Whatever goes wrong, what was written is a prefix of the intended events and fitted the room. */
  lemma {:induction false} RunWritesPrefix(plan: seq<Action>, room: nat)
    ensures var o := Run(plan, room);
      |o.written| <= room && |o.written| <= |Emitted(plan)| && o.written == Emitted(plan)[..|o.written|]
    decreases |plan|
  {
    if plan != [] {
      EmittedCons(plan);
      var rest := Emitted(plan[1..]);
      match plan[0]
      case Emit(e) =>
        if room > 0 {
          RunWritesPrefix(plan[1..], room - 1);
          var w := Run(plan[1..], room - 1).written;
          assert Emitted(plan) == [e] + rest;
          assert ([e] + rest)[..|[e] + w|] == [e] + rest[..|w|];
        }
      case CheckCode(code) =>
        if code.Some? {
          RunWritesPrefix(plan[1..], room);
          assert Emitted(plan) == rest;
        }
    }
  }

  /** The run finishes without an exception exactly when no code is missing and every event fits, and then it wrote them all. */
  lemma {:induction false} RunCompletes(plan: seq<Action>, room: nat)
    ensures Run(plan, room).thrown.None? <==> NoMissingCode(plan) && |Emitted(plan)| <= room
    ensures Run(plan, room).thrown.None? ==> Run(plan, room).written == Emitted(plan)
    decreases |plan|
  {
    if plan != [] {
      var rest := plan[1..];
      EmittedCons(plan);
      assert NoMissingCode(plan) <==> plan[0] != CheckCode(None) && NoMissingCode(rest) by {
        if plan[0] != CheckCode(None) && NoMissingCode(rest) {
          forall k | 0 <= k < |plan| ensures plan[k] != CheckCode(None) {
            if k > 0 { assert plan[k] == rest[k - 1]; }
          }
        }
      }
      match plan[0]
      case Emit(e) =>
        if room > 0 {
          RunCompletes(rest, room - 1);
        }
      case CheckCode(code) =>
        if code.Some? {
          RunCompletes(rest, room);
        }
    }
  }

  /** The only exceptions are the writer's failure and the missing code's `NullPointerException`. */
  lemma {:induction false} RunThrows(plan: seq<Action>, room: nat)
    ensures Run(plan, room).thrown in {None, Some(WriteFailure), Some(NullPointerException)}
    decreases |plan|
  {
    if plan != [] {
      match plan[0]
      case Emit(e) =>
        if room > 0 {
          RunThrows(plan[1..], room - 1);
        }
      case CheckCode(code) =>
        if code.Some? {
          RunThrows(plan[1..], room);
        }
    }
  }

  lemma {:induction false} EmittedAppend(a: seq<Action>, b: seq<Action>)
    ensures Emitted(a + b) == Emitted(a) + Emitted(b)
    decreases |a|
  {
    if a == [] {
      assert a + b == b;
    } else {
      assert (a + b)[0] == a[0] && (a + b)[1..] == a[1..] + b;
      EmittedAppend(a[1..], b);
      assert Emitted(a + b) == EventsOf(a[0]) + (Emitted(a[1..]) + Emitted(b));
    }
  }

  lemma {:induction false} EmittedEmits(events: seq<XmlEvent>)
    ensures Emitted(Emits(events)) == events
    decreases |events|
  {
    if events != [] {
      assert Emits(events)[1..] == Emits(events[1..]);
      EmittedEmits(events[1..]);
      assert events == [events[0]] + events[1..];
    }
  }

  lemma {:induction false} ErrorsPlanSerializes(errors: seq<Error>)
    ensures Emitted(ErrorsPlan(errors)) == SerializeErrors(ErrorElements(errors))
    decreases |errors|
  {
    if errors != [] {
      var e := errors[0];
      var head := [StartElement("error"), Attribute("line", Some(DecimalString(e.line as int))),
                   Attribute("column", Some(DecimalString(e.character as int)))];
      var tail := [Attribute("severity", Some(SeverityOf(e.code))), Attribute("message", e.reason), EndElement];
      assert Emitted([CheckCode(e.code)]) == [] by {
        assert [CheckCode(e.code)][1..] == [];
      }
      EmittedAppend(Emits(head) + [CheckCode(e.code)], Emits(tail));
      EmittedAppend(Emits(head), [CheckCode(e.code)]);
      EmittedEmits(head);
      EmittedEmits(tail);
      assert Emitted(ErrorPlan(e)) == SerializeError(ErrorElementOf(e)) by {
        assert Emitted(ErrorPlan(e)) == head + [] + tail;
      }
      EmittedAppend(ErrorPlan(e), ErrorsPlan(errors[1..]));
      assert ErrorElements(errors)[1..] == ErrorElements(errors[1..]) by {
        var tail, rest := ErrorElements(errors)[1..], ErrorElements(errors[1..]);
        forall k | 0 <= k < |tail| ensures tail[k] == rest[k] {
          assert errors[1..][k] == errors[k + 1];
        }
      }
      ErrorsPlanSerializes(errors[1..]);
    }
  }

  lemma {:induction false} FilesPlanSerializes(errorsByFile: seq<(string, seq<Error>)>)
    ensures Emitted(FilesPlan(errorsByFile)) == SerializeFiles(ReportDocument(errorsByFile).files)
    decreases |errorsByFile|
  {
    if errorsByFile != [] {
      var (filePath, errors) := errorsByFile[0];
      var open := [StartElement("file"), Attribute("name", Some(filePath))];
      EmittedAppend(FilePlan(filePath, errors), FilesPlan(errorsByFile[1..]));
      EmittedAppend(Emits(open), ErrorsPlan(errors));
      EmittedAppend(Emits(open) + ErrorsPlan(errors), Emits([EndElement]));
      EmittedEmits(open);
      EmittedEmits([EndElement]);
      ErrorsPlanSerializes(errors);
      assert ReportDocument(errorsByFile).files[0] == FileElement(filePath, ErrorElements(errors));
      assert ReportDocument(errorsByFile).files[1..] == ReportDocument(errorsByFile[1..]).files by {
        var tail, rest := ReportDocument(errorsByFile).files[1..], ReportDocument(errorsByFile[1..]).files;
        forall k | 0 <= k < |tail| ensures tail[k] == rest[k] {
          assert errorsByFile[1..][k] == errorsByFile[k + 1];
        }
      }
      FilesPlanSerializes(errorsByFile[1..]);
    }
  }

  /** The events the reporter means to write are exactly the serialised report document. */
  lemma ReportPlanSerializes(errorsByFile: seq<(string, seq<Error>)>)
    ensures Emitted(ReportPlan(errorsByFile)) == SerializeReport(ReportDocument(errorsByFile))
  {
    var head := [StartDocument("UTF-8", "1.0"), StartElement("checkstyle"), Attribute("version", Some(ReportVersion))];
    EmittedAppend(Emits(head), FilesPlan(errorsByFile));
    EmittedAppend(Emits(head) + FilesPlan(errorsByFile), Emits([EndElement]));
    EmittedEmits(head);
    EmittedEmits([EndElement]);
    FilesPlanSerializes(errorsByFile);
  }

  /** Every Error with a code: the plan checks no missing code. */
  predicate AllCodesPresent(errorsByFile: seq<(string, seq<Error>)>) {
    forall k, j :: 0 <= k < |errorsByFile| && 0 <= j < |errorsByFile[k].1| ==> errorsByFile[k].1[j].code.Some?
  }

  lemma {:induction false} ErrorsPlanChecks(errors: seq<Error>, k: nat)
    requires k < |ErrorsPlan(errors)| && ErrorsPlan(errors)[k] == CheckCode(None)
    ensures exists j :: 0 <= j < |errors| && errors[j].code.None?
    decreases |errors|
  {
    var p := ErrorPlan(errors[0]);
    if k < |p| {
      assert p[k] == CheckCode(None);
      assert errors[0].code.None?;
    } else {
      assert ErrorsPlan(errors[1..])[k - |p|] == CheckCode(None);
      ErrorsPlanChecks(errors[1..], k - |p|);
      var j :| 0 <= j < |errors[1..]| && errors[1..][j].code.None?;
      assert errors[j + 1].code.None?;
    }
  }

  lemma {:induction false} FilesPlanChecks(errorsByFile: seq<(string, seq<Error>)>, k: nat)
    requires k < |FilesPlan(errorsByFile)| && FilesPlan(errorsByFile)[k] == CheckCode(None)
    ensures !AllCodesPresent(errorsByFile)
    decreases |errorsByFile|
  {
    var (filePath, errors) := errorsByFile[0];
    var f := FilePlan(filePath, errors);
    if k < |f| {
      assert 2 <= k < 2 + |ErrorsPlan(errors)| && ErrorsPlan(errors)[k - 2] == CheckCode(None);
      ErrorsPlanChecks(errors, k - 2);
      var j :| 0 <= j < |errors| && errors[j].code.None?;
      assert errorsByFile[0].1[j].code.None?;
    } else {
      assert FilesPlan(errorsByFile[1..])[k - |f|] == CheckCode(None);
      FilesPlanChecks(errorsByFile[1..], k - |f|);
      var k', j :| 0 <= k' < |errorsByFile[1..]| && 0 <= j < |errorsByFile[1..][k'].1| && errorsByFile[1..][k'].1[j].code.None?;
      assert errorsByFile[k' + 1].1[j].code.None?;
    }
  }

  /**
   * On an output with room enough, a report whose Errors all have codes is
   * written whole: the serialised document, and nothing thrown.
   */
  lemma CompleteReport(errorsByFile: seq<(string, seq<Error>)>, room: nat)
    requires AllCodesPresent(errorsByFile)
    requires room >= |SerializeReport(ReportDocument(errorsByFile))|
    ensures Run(ReportPlan(errorsByFile), room) == Outcome(SerializeReport(ReportDocument(errorsByFile)), None)
  {
    var plan := ReportPlan(errorsByFile);
    ReportPlanSerializes(errorsByFile);
    forall k | 0 <= k < |plan| ensures plan[k] != CheckCode(None) {
      if plan[k] == CheckCode(None) {
        assert 3 <= k < 3 + |FilesPlan(errorsByFile)|;
        assert FilesPlan(errorsByFile)[k - 3] == CheckCode(None);
        FilesPlanChecks(errorsByFile, k - 3);
      }
    }
    RunCompletes(plan, room);
  }

  // ---------------------------------------------------------------------
  // The writer and the method

  /**
   * The `OutputStream` behind the StAX writer, as the events it received;
   * it accepts `room` more events and fails on any further one.
   */
  class ReportOutput {
    var events: seq<XmlEvent>
    var room: nat

    constructor (room: nat)
      ensures events == [] && this.room == room
    {
      events := [];
      this.room := room;
    }

    /** One writer call: accepted when there is room, otherwise an `XMLStreamException`. */
    method Write(e: XmlEvent) returns (ok: bool)
      modifies this
      ensures ok == (old(room) > 0)
      ensures events == (if ok then old(events) + [e] else old(events))
      ensures room == (if ok then old(room) - 1 else old(room))
    {
      ok := room > 0;
      if ok {
        events := events + [e];
        room := room - 1;
      }
    }
  }

  lemma ReportPlanShape(errorsByFile: seq<(string, seq<Error>)>)
    ensures var plan := ReportPlan(errorsByFile);
      |plan| >= 3 && plan[0] == Emit(StartDocument("UTF-8", "1.0")) && plan[1] == Emit(StartElement("checkstyle")) &&
      plan[2] == Emit(Attribute("version", Some(ReportVersion))) &&
      plan[0..] == plan && plan[3..] == FilesPlan(errorsByFile[0..]) + Emits([EndElement])
  {
    assert errorsByFile[0..] == errorsByFile;
  }

  lemma FilesPlanShape(errorsByFile: seq<(string, seq<Error>)>, i: nat, tail: seq<Action>)
    requires i < |errorsByFile|
    ensures FilesPlan(errorsByFile[i..]) + tail ==
            FilePlan(errorsByFile[i].0, errorsByFile[i].1) + (FilesPlan(errorsByFile[i + 1..]) + tail)
  {
    assert errorsByFile[i..][1..] == errorsByFile[i + 1..];
  }

  lemma FilePlanShape(filePath: string, errors: seq<Error>, after: seq<Action>)
    ensures var plan := FilePlan(filePath, errors) + after;
      |plan| >= 2 && plan[0] == Emit(StartElement("file")) && plan[1] == Emit(Attribute("name", Some(filePath))) &&
      plan[0..] == plan && plan[2..] == ErrorsPlan(errors[0..]) + (Emits([EndElement]) + after)
  {
    assert errors[0..] == errors;
  }

  lemma ErrorsPlanShape(errors: seq<Error>, j: nat, tail: seq<Action>)
    requires j < |errors|
    ensures ErrorsPlan(errors[j..]) + tail == ErrorPlan(errors[j]) + (ErrorsPlan(errors[j + 1..]) + tail)
  {
    assert errors[j..][1..] == errors[j + 1..];
  }

  /** The seven steps of one Error at the head of `plan`, followed by `next`. */
  predicate ErrorSteps(plan: seq<Action>, error: Error, next: seq<Action>) {
    |plan| == 7 + |next| &&
    plan[0] == Emit(StartElement("error")) &&
    plan[1] == Emit(Attribute("line", Some(DecimalString(error.line as int)))) &&
    plan[2] == Emit(Attribute("column", Some(DecimalString(error.character as int)))) &&
    plan[3] == CheckCode(error.code) &&
    plan[4] == Emit(Attribute("severity", Some(SeverityOf(error.code)))) &&
    plan[5] == Emit(Attribute("message", error.reason)) &&
    plan[6] == Emit(EndElement) && plan[7..] == next
  }

  lemma ErrorPlanShape(error: Error, next: seq<Action>)
    ensures ErrorSteps(ErrorPlan(error) + next, error, next)
  {
  }

  lemma CloseShape(after: seq<Action>)
    ensures var plan := Emits([EndElement]) + after;
      |plan| >= 1 && plan[0..] == plan && plan[0] == Emit(EndElement) && plan[1..] == after
  {
  }

  /** A write of the plan's next event, keeping `total == Then(written so far, Run(rest of plan))`. */
  method Put(out: ReportOutput, e: XmlEvent, ghost plan: seq<Action>, ghost k: nat, ghost total: Outcome, ghost start: nat)
    returns (ok: bool)
    requires start <= |out.events| && k < |plan| && plan[k] == Emit(e)
    requires total == Then(out.events[start..], Run(plan[k..], out.room))
    modifies out
    ensures start <= |out.events| && out.events[..start] == old(out.events)[..start]
    ensures ok ==> total == Then(out.events[start..], Run(plan[k + 1..], out.room))
    ensures !ok ==> total == Outcome(out.events[start..], Some(WriteFailure))
  {
    ghost var before := out.events[start..];
    assert plan[k..][0] == Emit(e) && plan[k..][1..] == plan[k + 1..];
    ok := out.Write(e);
    if ok {
      assert out.events[start..] == before + [e];
      assert before + ([e] + Run(plan[k + 1..], out.room).written) == before + [e] + Run(plan[k + 1..], out.room).written;
    } else {
      assert before + [] == before;
    }
  }

  /** The inner loop's body: one `error` element, or the exception that cuts it short. */
  method WriteErrorElement(out: ReportOutput, error: Error, ghost rest: seq<Action>, ghost next: seq<Action>,
                           ghost total: Outcome, ghost start: nat) returns (thrown: Option<Exception>)
    requires start <= |out.events| && ErrorSteps(rest, error, next)
    requires total == Then(out.events[start..], Run(rest, out.room))
    modifies out
    ensures start <= |out.events| && out.events[..start] == old(out.events)[..start]
    ensures thrown.None? ==> total == Then(out.events[start..], Run(next, out.room))
    ensures thrown.Some? ==> total == Outcome(out.events[start..], thrown)
  {
    assert rest[0..] == rest && rest[3..][0] == rest[3] && rest[3..][1..] == rest[4..];
    var ok := Put(out, StartElement("error"), rest, 0, total, start);
    if !ok { return Some(WriteFailure); }
    ok := Put(out, Attribute("line", Some(DecimalString(error.line as int))), rest, 1, total, start);
    if !ok { return Some(WriteFailure); }
    ok := Put(out, Attribute("column", Some(DecimalString(error.character as int))), rest, 2, total, start);
    if !ok { return Some(WriteFailure); }

    if error.code.None? {
      assert out.events[start..] + [] == out.events[start..];
      return Some(NullPointerException);
    }
    var severity := Severity(error.code.value);

    ok := Put(out, Attribute("severity", Some(severity)), rest, 4, total, start);
    if !ok { return Some(WriteFailure); }
    ok := Put(out, Attribute("message", error.reason), rest, 5, total, start);
    if !ok { return Some(WriteFailure); }
    ok := Put(out, EndElement, rest, 6, total, start);
    if !ok { return Some(WriteFailure); }
    return None;
  }

  /** The outer loop's body: one `file` element and, in its inner loop, an `error` element per Error. */
  method WriteFileElement(out: ReportOutput, filePath: string, errors: seq<Error>, ghost rest: seq<Action>,
                          ghost after: seq<Action>, ghost total: Outcome, ghost start: nat) returns (thrown: Option<Exception>)
    requires start <= |out.events| && rest == FilePlan(filePath, errors) + after
    requires total == Then(out.events[start..], Run(rest, out.room))
    modifies out
    ensures start <= |out.events| && out.events[..start] == old(out.events)[..start]
    ensures thrown.None? ==> total == Then(out.events[start..], Run(after, out.room))
    ensures thrown.Some? ==> total == Outcome(out.events[start..], thrown)
  {
    ghost var close := Emits([EndElement]) + after;
    ghost var plan := rest;
    FilePlanShape(filePath, errors, after);
    var ok := Put(out, StartElement("file"), plan, 0, total, start);
    if !ok { return Some(WriteFailure); }
    ok := Put(out, Attribute("name", Some(filePath)), plan, 1, total, start);
    if !ok { return Some(WriteFailure); }
    plan := plan[2..];

    var j := 0;
    while j < |errors|
      invariant 0 <= j <= |errors|
      invariant start <= |out.events| && out.events[..start] == old(out.events)[..start]
      invariant plan == ErrorsPlan(errors[j..]) + close
      invariant total == Then(out.events[start..], Run(plan, out.room))
    {
      ghost var next := ErrorsPlan(errors[j + 1..]) + close;
      ErrorsPlanShape(errors, j, close);
      ErrorPlanShape(errors[j], next);
      thrown := WriteErrorElement(out, errors[j], plan, next, total, start);
      if thrown.Some? { return; }
      plan := next;
      j := j + 1;
    }

    assert errors[j..] == [];
    CloseShape(after);
    ok := Put(out, EndElement, plan, 0, total, start);
    if !ok { return Some(WriteFailure); }
    return None;
  }

  /**
   * `generateReport`: the start of the document and the root element, then
   * for each file a `file` element holding an `error` element per Error.
   * What reaches the output and what is thrown are `Run` of the plan; by
   * `RunWritesPrefix` and `ReportPlanSerializes` that is a prefix of the
   * serialised report document, all of it when nothing goes wrong.
   */
  method GenerateReport(errorsByFile: seq<(string, seq<Error>)>, out: ReportOutput) returns (thrown: Option<Exception>)
    modifies out
    ensures |old(out.events)| <= |out.events| && out.events[..|old(out.events)|] == old(out.events)
    ensures Outcome(out.events[|old(out.events)|..], thrown) == Run(ReportPlan(errorsByFile), old(out.room))
  {
    ghost var start := |out.events|;
    ghost var total := Run(ReportPlan(errorsByFile), out.room);
    ghost var rest := ReportPlan(errorsByFile);
    assert out.events[start..] == [];
    ReportPlanShape(errorsByFile);
    var ok: bool;

    ok := Put(out, StartDocument("UTF-8", "1.0"), rest, 0, total, start);
    if !ok { return Some(WriteFailure); }
    ok := Put(out, StartElement("checkstyle"), rest, 1, total, start);
    if !ok { return Some(WriteFailure); }
    ok := Put(out, Attribute("version", Some(ReportVersion)), rest, 2, total, start);
    if !ok { return Some(WriteFailure); }
    rest := rest[3..];

    var i := 0;
    while i < |errorsByFile|
      invariant 0 <= i <= |errorsByFile|
      invariant start <= |out.events| && out.events[..start] == old(out.events)
      invariant rest == FilesPlan(errorsByFile[i..]) + Emits([EndElement])
      invariant total == Then(out.events[start..], Run(rest, out.room))
    {
      var (filePath, errors) := errorsByFile[i];
      ghost var after := FilesPlan(errorsByFile[i + 1..]) + Emits([EndElement]);
      FilesPlanShape(errorsByFile, i, Emits([EndElement]));
      thrown := WriteFileElement(out, filePath, errors, rest, after, total, start);
      if thrown.Some? { return; }
      rest := after;
      i := i + 1;
    }

    assert errorsByFile[i..] == [];
    CloseShape([]);
    ok := Put(out, EndElement, rest, 0, total, start);
    if !ok { return Some(WriteFailure); }
    assert out.events[start..] + [] == out.events[start..];
    return None;
  }
}
