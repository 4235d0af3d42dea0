/** Sub-agent summaries: the Markdown printer and the parser that reads its output back. */
module Summary {
  import opened Wrappers
  import opened LineReader
  import opened Numerals
  import opened Text

  datatype Verdict = Success | Failure | Partial

  datatype TestResults = TestResults(total: nat, passed: nat, failed: nat)

  datatype SubAgentSummary = SubAgentSummary(
    taskId: string,
    agentId: string,
    completedAt: string,
    result: Verdict,
    summary: string,
    deliverables: seq<string>,
    testResults: Option<TestResults>,
    warnings: Option<seq<string>>
  )

  const BLANK := SubAgentSummary("", "", "", Success, "", [], None, None)
  const HEADING := "Sub-Agent Summary"
  const TASK_ID := "- **Task ID**"
  const AGENT := "- **Agent**"
  const COMPLETED_AT := "- **Completed At**"
  const TOTAL := "- **Total**"
  const PASSED := "- **Passed**"
  const FAILED := "- **Failed**"

  // ----- Printing -----

  function VerdictText(v: Verdict): string {
    match v
    case Success => "success"
    case Failure => "failure"
    case Partial => "partial"
  }

  function MetadataLines(s: SubAgentSummary): seq<string> {
    [Labelled(TASK_ID, s.taskId), Labelled(AGENT, s.agentId), Labelled(COMPLETED_AT, s.completedAt)]
  }

  function TestLines(tests: TestResults): seq<string> {
    [Labelled(TOTAL, Decimal(tests.total) + " tests"),
     Labelled(PASSED, Decimal(tests.passed)),
     Labelled(FAILED, Decimal(tests.failed))]
  }

  function TestSection(testResults: Option<TestResults>): seq<string> {
    match testResults
    case None => []
    case Some(tests) => SectionOpening("Test Results") + TestLines(tests)
  }

  /** The section is left out for an empty list as well as for none. */
  function WarningSection(warnings: Option<seq<string>>): seq<string> {
    if warnings.Some? && |warnings.value| > 0 then SectionOpening("Warnings") + BulletLines(warnings.value) else []
  }

  function ResultSection(v: Verdict): seq<string> {
    SectionOpening("Result") + [VerdictText(v)]
  }

  function SummarySection(text: string): seq<string> {
    SectionOpening("Summary") + [text]
  }

  function DeliverableSection(items: seq<string>): seq<string> {
    SectionOpening("Deliverables") + Bullets(items)
  }

  function HeadLines(s: SubAgentSummary): seq<string> {
    Opening(HEADING) + MetadataLines(s)
  }

  /** The entries of the document, before the empty last one. */
  function FormatLines(s: SubAgentSummary): seq<string> {
    HeadLines(s) + ResultSection(s.result) + SummarySection(s.summary) + DeliverableSection(s.deliverables)
    + TestSection(s.testResults) + WarningSection(s.warnings)
  }

  /** The head and the result, label by label. */
  lemma PrintedHead(s: SubAgentSummary)
    ensures HeadLines(s) + ResultSection(s.result)
         == ["# Sub-Agent Summary", "", "## Metadata", "",
             "- **Task ID**: " + s.taskId, "- **Agent**: " + s.agentId, "- **Completed At**: " + s.completedAt,
             "", "## Result", "",
             if s.result == Success then "success" else if s.result == Failure then "failure" else "partial"]
  {
    LabelledIs(TASK_ID, "- **Task ID**: ", s.taskId);
    LabelledIs(AGENT, "- **Agent**: ", s.agentId);
    LabelledIs(COMPLETED_AT, "- **Completed At**: ", s.completedAt);
    assert "# " + HEADING == "# Sub-Agent Summary";
    OpeningIs("Result", "## Result");
  }

  /** The test results, label by label. */
  lemma PrintedTests(tests: TestResults)
    ensures TestSection(Some(tests))
         == ["", "## Test Results", "",
             "- **Total**: " + (Decimal(tests.total) + " tests"),
             "- **Passed**: " + Decimal(tests.passed),
             "- **Failed**: " + Decimal(tests.failed)]
  {
    LabelledIs(TOTAL, "- **Total**: ", Decimal(tests.total) + " tests");
    LabelledIs(PASSED, "- **Passed**: ", Decimal(tests.passed));
    LabelledIs(FAILED, "- **Failed**: ", Decimal(tests.failed));
    OpeningIs("Test Results", "## Test Results");
  }

  /** The other sections in their order; test results and warnings only when there are any. */
  lemma PrintedSections(s: SubAgentSummary)
    ensures FormatLines(s)
         == HeadLines(s) + ResultSection(s.result)
            + (["", "## Summary", ""] + [s.summary])
            + (["", "## Deliverables", ""] + Bullets(s.deliverables))
            + (if s.testResults.None? then [] else TestSection(s.testResults))
            + (if s.warnings.None? || s.warnings.value == [] then [] else ["", "## Warnings", ""] + BulletLines(s.warnings.value))
  {
    OpeningIs("Summary", "## Summary");
    OpeningIs("Deliverables", "## Deliverables");
    OpeningIs("Warnings", "## Warnings");
  }

  function Format(s: SubAgentSummary): string {
    Join(FormatLines(s) + [""], '\n')
  }

  // ----- Parsing -----

  datatype Section = Elsewhere | Metadata | Result | Summary | Deliverables | Tests | Warnings

  function SectionNamed(name: string): Section {
    if name == "metadata" then Metadata
    else if name == "result" then Result
    else if name == "summary" then Summary
    else if name == "deliverables" then Deliverables
    else if name == "test results" then Tests
    else if name == "warnings" then Warnings
    else Elsewhere
  }

  type State = Reading<Section, SubAgentSummary>

  const START: State := Reading(Elsewhere, [], BLANK)

  datatype Field = NoField | TaskId | Agent | CompletedAt | Total | Passed | Failed

  function MetadataField(line: string): Field {
    if StartsWith(line, TASK_ID + ":") then TaskId
    else if StartsWith(line, AGENT + ":") then Agent
    else if StartsWith(line, COMPLETED_AT + ":") then CompletedAt
    else NoField
  }

  function TestField(line: string): Field {
    if StartsWith(line, TOTAL + ":") then Total
    else if StartsWith(line, PASSED + ":") then Passed
    else if StartsWith(line, FAILED + ":") then Failed
    else NoField
  }

  function SetField(s: SubAgentSummary, field: Field, line: string): SubAgentSummary {
    match field
    case TaskId => s.(taskId := FieldAfterColon(line))
    case Agent => s.(agentId := FieldAfterColon(line))
    case CompletedAt => s.(completedAt := RestAfterColon(line))
    case _ => s
  }

  function SetCount(s: SubAgentSummary, field: Field, number: Option<nat>): SubAgentSummary {
    var tests := s.testResults.GetOr(TestResults(0, 0, 0));
    match field
    case Total => s.(testResults := Some(if number.Some? then tests.(total := number.value) else tests))
    case Passed => s.(testResults := Some(if number.Some? then tests.(passed := number.value) else tests))
    case Failed => s.(testResults := Some(if number.Some? then tests.(failed := number.value) else tests))
    case _ => s
  }

  function VerdictOf(text: string): Option<Verdict> {
    if text == "success" then Some(Success)
    else if text == "failure" then Some(Failure)
    else if text == "partial" then Some(Partial)
    else None
  }

  function AddWarning(s: SubAgentSummary, item: string): SubAgentSummary {
    s.(warnings := Some(s.warnings.GetOr([]) + [item]))
  }

  function ReadDeliverable(s: SubAgentSummary, line: string): SubAgentSummary {
    if StartsWith(line, "- ") && line != "- None" then s.(deliverables := s.deliverables + [line[2..]]) else s
  }

  function ReadWarning(s: SubAgentSummary, line: string): SubAgentSummary {
    if StartsWith(line, "- ") then AddWarning(s, line[2..]) else s
  }

  function ReadResult(s: SubAgentSummary, line: string): SubAgentSummary {
    s.(result := VerdictOf(ToLowerCase(line)).GetOr(s.result))
  }

  /** A trimmed line that is not a title, in the section it stands in. */
  function ReadLine(st: State, line: string): State {
    var s := st.doc;
    match st.section
    case Elsewhere => st
    case Metadata => st.(doc := SetField(s, MetadataField(line), line))
    case Result => st.(doc := ReadResult(s, line))
    case Summary => if IsProse(line) then st.(prose := st.prose + [line]) else st
    case Deliverables => st.(doc := ReadDeliverable(s, line))
    case Tests => st.(doc := SetCount(s, TestField(line), FirstNumber(line)))
    case Warnings => st.(doc := ReadWarning(s, line))
  }

  const READER := Reader(SectionNamed, ReadLine)

  function Finish(st: State): SubAgentSummary {
    st.doc.(summary := Join(st.prose, '\n'))
  }

  function Parse(markdown: string): SubAgentSummary {
    Finish(Fold(READER, START, Split(markdown, '\n')))
  }

  /** The result is read whatever its case, and any other word changes nothing. */
  lemma ResultIsRead(s: SubAgentSummary, line: string)
    ensures ToLowerCase(line) == "success" ==> ReadResult(s, line) == s.(result := Success)
    ensures ToLowerCase(line) == "failure" ==> ReadResult(s, line) == s.(result := Failure)
    ensures ToLowerCase(line) == "partial" ==> ReadResult(s, line) == s.(result := Partial)
    ensures ToLowerCase(line) != "success" && ToLowerCase(line) != "failure" && ToLowerCase(line) != "partial" ==> ReadResult(s, line) == s
  {
  }

  /** A text without titles reads as an empty summary of a success. */
  lemma UntitledIsBlank(markdown: string)
    requires forall line | line in Split(markdown, '\n') :: !StartsWith(Trim(line), "## ")
    ensures Parse(markdown) == SubAgentSummary("", "", "", Success, "", [], None, None)
  {
    forall line
      ensures READER.read(START, line) == START
    {
      assert READER.read(START, line) == ReadLine(START, line);
    }
    UntitledChangesNothing(READER, START, Split(markdown, '\n'));
  }

  /** The summary is the lines under its title that are neither empty nor headings. */
  lemma SummaryIsRead(st: State, line: string)
    requires st.section.Summary?
    ensures ReadLine(st, line).prose == if line == "" || line[0] == '#' then st.prose else st.prose + [line]
  {
    assert line != "" ==> (StartsWith(line, "#") <==> line[0] == '#');
  }

  /** What stands under any other title is ignored. */
  lemma OtherSectionsAreIgnored(st: State, line: string, title: string, lines: seq<string>)
    requires IsTitle(line, title) && forall x | x in lines :: !StartsWith(Trim(x), "## ")
    requires title !in {"metadata", "result", "summary", "deliverables", "test results", "warnings"}
    ensures var st' := Fold(READER, st, [line] + lines); st'.doc == st.doc && st'.prose == st.prose
  {
    var st0 := st.(section := READER.sectionNamed(title));
    forall x
      ensures READER.read(st0, x) == st0
    {
      assert READER.read(st0, x) == ReadLine(st0, x);
    }
    IgnoredSection(READER, st, line, title, lines);
  }

  /** A labelled line sets its count to the first number in it; counts not read yet are 0. */
  lemma TestsAreRead(st: State, line: string)
    requires st.section.Tests?
    ensures var tests := if st.doc.testResults.Some? then st.doc.testResults.value else TestResults(0, 0, 0);
            var number := FirstNumber(line);
            var read := ReadLine(st, line).doc;
            && (StartsWith(line, "- **Total**:") ==>
                  read == st.doc.(testResults := Some(if number.Some? then TestResults(number.value, tests.passed, tests.failed) else tests)))
            && (StartsWith(line, "- **Passed**:") ==>
                  read == st.doc.(testResults := Some(if number.Some? then TestResults(tests.total, number.value, tests.failed) else tests)))
            && (StartsWith(line, "- **Failed**:") ==>
                  read == st.doc.(testResults := Some(if number.Some? then TestResults(tests.total, tests.passed, number.value) else tests)))
  {
    assert TOTAL + ":" == "- **Total**:" && PASSED + ":" == "- **Passed**:" && FAILED + ":" == "- **Failed**:";
    assert "- **Total**:"[4] == 'T' && "- **Passed**:"[4] == 'P' && "- **Failed**:"[4] == 'F';
  }

  // ----- Which summaries survive -----

  predicate GoodWarnings(warnings: Option<seq<string>>) {
    warnings.Some? ==> warnings.value != [] && forall item | item in warnings.value :: KeptItem(item)
  }

  predicate WellFormedFields(s: SubAgentSummary) {
    && OneLine(s.taskId) && ':' !in s.taskId
    && OneLine(s.agentId) && ':' !in s.agentId
    && OneLine(s.completedAt)
    && GoodItems(s.deliverables)
    && GoodWarnings(s.warnings)
  }

  predicate WellFormed(s: SubAgentSummary) {
    WellFormedFields(s) && PlainText(s.summary)
  }

  // ----- Everything parsed is well formed -----

  lemma FieldStaysSound(s: SubAgentSummary, field: Field, line: string)
    requires WellFormedFields(s) && '\n' !in line
    ensures WellFormedFields(SetField(s, field, line))
  {
    FieldCharacters(line, '\n');
  }

  lemma DashAlone(line: string)
    requires Trimmed(line)
    ensures line != "- "
  {
    assert "- "[1] == ' ';
  }

  lemma BulletsStaySound(s: SubAgentSummary, line: string)
    requires WellFormedFields(s) && OneLine(line)
    ensures WellFormedFields(ReadDeliverable(s, line)) && WellFormedFields(ReadWarning(s, line))
  {
    if StartsWith(line, "- ") {
      DashAlone(line);
      BulletItem(line);
      assert line == "- " + line[2..];
    }
  }

  lemma ReadStaysSound(st: State, line: string)
    requires Sound(WellFormedFields, st) && OneLine(line)
    ensures Sound(WellFormedFields, ReadLine(st, line))
  {
    var s := st.doc;
    match st.section
    case Elsewhere =>
    case Metadata => FieldStaysSound(s, MetadataField(line), line);
    case Result => assert WellFormedFields(ReadResult(s, line));
    case Summary =>
    case Deliverables => BulletsStaySound(s, line);
    case Tests => assert WellFormedFields(SetCount(s, TestField(line), FirstNumber(line)));
    case Warnings => BulletsStaySound(s, line);
  }

  lemma ParsedIsWellFormed(markdown: string)
    ensures WellFormed(Parse(markdown))
  {
    forall st, line | Sound(WellFormedFields, st) && OneLine(line)
      ensures Sound(WellFormedFields, READER.read(st, line))
    {
      ReadStaysSound(st, line);
    }
    LinesStaySound(READER, WellFormedFields, START, Split(markdown, '\n'));
    ProseIsPlain(Fold(READER, START, Split(markdown, '\n')).prose);
  }

  // ----- Well-formed summaries survive -----

  lemma BlankIsSkipped(st: State)
    ensures READER.read(st, "") == st
  {
  }

  // Metadata.

  lemma MetadataNames(line: string)
    ensures StartsWith(line, TASK_ID + ":") ==> MetadataField(line) == TaskId
    ensures StartsWith(line, AGENT + ":") ==> MetadataField(line) == Agent
    ensures StartsWith(line, COMPLETED_AT + ":") ==> MetadataField(line) == CompletedAt
  {
    assert (TASK_ID + ":")[4] == 'T' && (AGENT + ":")[4] == 'A' && (COMPLETED_AT + ":")[4] == 'C';
  }

  lemma TestNames(line: string)
    ensures StartsWith(line, TOTAL + ":") ==> TestField(line) == Total
    ensures StartsWith(line, PASSED + ":") ==> TestField(line) == Passed
    ensures StartsWith(line, FAILED + ":") ==> TestField(line) == Failed
  {
    assert (TOTAL + ":")[4] == 'T' && (PASSED + ":")[4] == 'P' && (FAILED + ":")[4] == 'F';
  }

  predicate Names(name: string, field: Field) {
    match field
    case NoField => false
    case TaskId => name == TASK_ID
    case Agent => name == AGENT
    case CompletedAt => name == COMPLETED_AT
    case Total => name == TOTAL
    case Passed => name == PASSED
    case Failed => name == FAILED
  }

  lemma NamesAreLabels(name: string, field: Field)
    requires Names(name, field)
    ensures name != "" && name[0] == '-' && Trimmed(name + ":") && ':' !in name && '\n' !in name
  {
  }

  lemma NamesHaveNoDigits(name: string, field: Field)
    requires (field.Total? || field.Passed? || field.Failed?) && Names(name, field)
    ensures forall c | c in name :: !IsDigit(c)
  {
  }

  lemma MetadataLine(st: State, name: string, value: string, field: Field)
    requires st.section.Metadata? && Trimmed(value) && Names(name, field)
    requires field.CompletedAt? || ((field.TaskId? || field.Agent?) && ':' !in value)
    ensures ParseLine(READER, st, Labelled(name, value)) == st.(doc := WithField(st.doc, field, value))
  {
    NamesAreLabels(name, field);
    ReadField(name, value);
    var line := Trim(Labelled(name, value));
    MetadataNames(line);
    NotTitle(line);
  }

  function WithField(s: SubAgentSummary, field: Field, value: string): SubAgentSummary {
    match field
    case TaskId => s.(taskId := value)
    case Agent => s.(agentId := value)
    case CompletedAt => s.(completedAt := value)
    case _ => s
  }

  lemma MetadataEntry(s: SubAgentSummary)
    requires WellFormed(s)
    ensures forall entry | entry in MetadataLines(s) :: '\n' !in entry
  {
    NamesAreLabels(TASK_ID, TaskId);
    NamesAreLabels(AGENT, Agent);
    NamesAreLabels(COMPLETED_AT, CompletedAt);
    LabelledCharacters(TASK_ID, s.taskId, '\n');
    LabelledCharacters(AGENT, s.agentId, '\n');
    LabelledCharacters(COMPLETED_AT, s.completedAt, '\n');
  }

  lemma HeadingRead()
    ensures Feed(READER, START, Opening(HEADING)) == START.(section := Metadata)
  {
    BlankIsSkipped(START);
    BlankIsSkipped(START.(section := Metadata));
    OpeningRead(READER, START, HEADING, Metadata);
  }

  lemma MetadataRead(st: State, s: SubAgentSummary)
    requires WellFormed(s) && st.section.Metadata?
    ensures Feed(READER, st, MetadataLines(s))
         == st.(doc := st.doc.(taskId := s.taskId, agentId := s.agentId, completedAt := s.completedAt))
  {
    var st1 := st.(doc := WithField(st.doc, TaskId, s.taskId));
    var st2 := st1.(doc := WithField(st1.doc, Agent, s.agentId));
    MetadataEntry(s);
    assert ParseLine(READER, st, Labelled(TASK_ID, s.taskId)) == st1 by { MetadataLine(st, TASK_ID, s.taskId, TaskId); }
    assert ParseLine(READER, st1, Labelled(AGENT, s.agentId)) == st2 by { MetadataLine(st1, AGENT, s.agentId, Agent); }
    MetadataLine(st2, COMPLETED_AT, s.completedAt, CompletedAt);
    FeedThree(READER, st, Labelled(TASK_ID, s.taskId), Labelled(AGENT, s.agentId), Labelled(COMPLETED_AT, s.completedAt));
  }

  lemma HeadRead(s: SubAgentSummary)
    requires WellFormed(s)
    ensures Feed(READER, START, HeadLines(s))
         == Reading(Metadata, [], BLANK.(taskId := s.taskId, agentId := s.agentId, completedAt := s.completedAt))
  {
    HeadingRead();
    MetadataRead(START.(section := Metadata), s);
    FeedAppended(READER, START, Opening(HEADING), MetadataLines(s));
  }

  // Result.

  lemma VerdictWord(v: Verdict)
    ensures var word := VerdictText(v);
            word != "" && Trimmed(word) && word[0] != '#' && '\n' !in word && VerdictOf(ToLowerCase(word)) == Some(v)
  {
    match v
    case Success => assert ToLowerCase("success") == "success";
    case Failure => assert ToLowerCase("failure") == "failure";
    case Partial => assert ToLowerCase("partial") == "partial";
  }

  lemma VerdictLine(st: State, v: Verdict)
    requires st.section.Result?
    ensures ParseLine(READER, st, VerdictText(v)) == st.(doc := st.doc.(result := v))
  {
    VerdictWord(v);
    TrimSolid(VerdictText(v));
    NotTitle(VerdictText(v));
  }

  lemma ResultRead(st: State, v: Verdict)
    ensures Feed(READER, st, ResultSection(v)) == st.(section := Result, doc := st.doc.(result := v))
  {
    assert ToLowerCase("Result") == "result";
    BlankIsSkipped(st);
    BlankIsSkipped(st.(section := Result));
    SectionOpened(READER, st, "Result", Result);
    FeedAppended(READER, st, SectionOpening("Result"), [VerdictText(v)]);
    VerdictLine(st.(section := Result), v);
    VerdictWord(v);
    FeedOne(READER, st.(section := Result), VerdictText(v));
  }

  // Summary text.

  lemma SummaryRead(st: State, text: string)
    requires PlainText(text) && st.prose == []
    ensures Feed(READER, st, SummarySection(text)) == st.(section := Summary, prose := ProseLines(text))
  {
    assert ToLowerCase("Summary") == "summary";
    BlankIsSkipped(st);
    BlankIsSkipped(st.(section := Summary));
    ProseRead(READER, st, "Summary", Summary, text);
  }

  // Deliverables.

  function WithDeliverables(st: State, items: seq<string>): State {
    st.(doc := st.doc.(deliverables := st.doc.deliverables + items))
  }

  lemma DeliverablesAndMore(st: State, a: seq<string>, b: seq<string>)
    ensures WithDeliverables(st, []) == st
    ensures WithDeliverables(WithDeliverables(st, a), b) == WithDeliverables(st, a + b)
  {
    var before := st.doc.deliverables;
    assert before + [] == before;
    assert before + a + b == before + (a + b);
  }

  lemma DeliverableLine(st: State, item: string)
    requires st.section.Deliverables? && GoodItem(item)
    ensures ParseLine(READER, st, "- " + item) == WithDeliverables(st, [item])
  {
    BulletLine(item);
    assert "- None"[2..] == "None";
  }

  lemma {:induction false} DeliverablesFeed(st: State, items: seq<string>)
    requires st.section.Deliverables? && GoodItems(items)
    ensures Feed(READER, st, BulletLines(items)) == WithDeliverables(st, items)
    decreases |items|
  {
    if items == [] {
      DeliverablesAndMore(st, [], []);
    } else {
      var first, rest := items[0], items[1..];
      assert items == [first] + rest;
      DeliverableLine(st, first);
      FeedLine(READER, st, "- " + first, BulletLines(rest));
      DeliverablesFeed(WithDeliverables(st, [first]), rest);
      DeliverablesAndMore(st, [first], rest);
    }
  }

  lemma NoneLine(st: State)
    requires st.section.Deliverables?
    ensures ParseLine(READER, st, "None") == st && '\n' !in "None"
  {
  }

  lemma BulletsRead(st: State, items: seq<string>)
    requires st.section.Deliverables? && GoodItems(items)
    ensures Feed(READER, st, Bullets(items)) == WithDeliverables(st, items)
  {
    if items == [] {
      NoneLine(st);
      FeedOne(READER, st, "None");
      DeliverablesAndMore(st, [], []);
    } else {
      DeliverablesFeed(st, items);
    }
  }

  lemma DeliverablesRead(st: State, items: seq<string>)
    requires GoodItems(items) && st.doc.deliverables == []
    ensures Feed(READER, st, DeliverableSection(items))
         == st.(section := Deliverables, doc := st.doc.(deliverables := items))
  {
    var st' := st.(section := Deliverables);
    assert ToLowerCase("Deliverables") == "deliverables";
    BlankIsSkipped(st);
    BlankIsSkipped(st.(section := Deliverables));
    SectionOpened(READER, st, "Deliverables", Deliverables);
    FeedAppended(READER, st, SectionOpening("Deliverables"), Bullets(items));
    BulletsRead(st', items);
    assert [] + items == items;
  }

  // Test results.

  predicate IsCount(value: string, n: nat) {
    value == Decimal(n) || value == Decimal(n) + " tests"
  }

  lemma CountText(value: string, n: nat)
    requires IsCount(value, n)
    ensures value != "" && Trimmed(value) && '\n' !in value
  {
    assert Decimal(n)[0] in Decimal(n) && Decimal(n)[|Decimal(n)| - 1] in Decimal(n);
    assert value[0] == Decimal(n)[0];
    if value != Decimal(n) {
      assert value[|value| - 1] == 's';
    }
  }

  lemma CountNumber(name: string, value: string, n: nat)
    requires IsCount(value, n) && forall c | c in name :: !IsDigit(c)
    ensures FirstNumber(Labelled(name, value)) == Some(n)
  {
    var unit := if value == Decimal(n) then "" else " tests";
    var before := name + ":" + " ";
    assert forall c | c in before :: !IsDigit(c);
    assert Labelled(name, value) == before + Decimal(n) + unit;
    FirstNumberAfter(before, n, unit);
  }

  lemma CountLine(st: State, name: string, field: Field, value: string, n: nat)
    requires st.section.Tests? && (field.Total? || field.Passed? || field.Failed?) && Names(name, field)
    requires IsCount(value, n)
    ensures ParseLine(READER, st, Labelled(name, value)) == st.(doc := SetCount(st.doc, field, Some(n)))
    ensures '\n' !in Labelled(name, value)
  {
    CountText(value, n);
    NamesAreLabels(name, field);
    ReadField(name, value);
    LabelledCharacters(name, value, '\n');
    TrimLabelled(name + ":", value);
    NamesHaveNoDigits(name, field);
    CountNumber(name, value, n);
    TestNames(Labelled(name, value));
    NotTitle(Labelled(name, value));
  }

  lemma TestLinesRead(st: State, tests: TestResults)
    requires st.section.Tests? && st.doc.testResults == None
    ensures Feed(READER, st, TestLines(tests)) == st.(doc := st.doc.(testResults := Some(tests)))
  {
    var st1 := st.(doc := SetCount(st.doc, Total, Some(tests.total)));
    var st2 := st1.(doc := SetCount(st1.doc, Passed, Some(tests.passed)));
    var total := Decimal(tests.total) + " tests";
    CountLine(st, TOTAL, Total, total, tests.total);
    CountLine(st1, PASSED, Passed, Decimal(tests.passed), tests.passed);
    CountLine(st2, FAILED, Failed, Decimal(tests.failed), tests.failed);
    FeedThree(READER, st, Labelled(TOTAL, total), Labelled(PASSED, Decimal(tests.passed)),
              Labelled(FAILED, Decimal(tests.failed)));
  }

  lemma TestsRead(st: State, testResults: Option<TestResults>)
    requires st.doc.testResults == None
    ensures Feed(READER, st, TestSection(testResults))
         == st.(section := if testResults.Some? then Tests else st.section, doc := st.doc.(testResults := testResults))
  {
    match testResults
    case None =>
    case Some(tests) =>
      assert ToLowerCase("Test Results") == "test results";
      BlankIsSkipped(st);
      BlankIsSkipped(st.(section := Tests));
      SectionOpened(READER, st, "Test Results", Tests);
      FeedAppended(READER, st, SectionOpening("Test Results"), TestLines(tests));
      TestLinesRead(st.(section := Tests), tests);
  }

  // Warnings.

  function WithWarnings(st: State, items: seq<string>): State {
    if items == [] then st else st.(doc := st.doc.(warnings := Some(st.doc.warnings.GetOr([]) + items)))
  }

  lemma WarningsAndMore(st: State, a: seq<string>, b: seq<string>)
    ensures WithWarnings(WithWarnings(st, a), b) == WithWarnings(st, a + b)
  {
    var before := st.doc.warnings.GetOr([]);
    assert before + a + b == before + (a + b);
    assert b == [] ==> a + b == a;
    assert a == [] ==> a + b == b;
  }

  lemma WarningLine(st: State, item: string)
    requires st.section.Warnings? && KeptItem(item)
    ensures ParseLine(READER, st, "- " + item) == WithWarnings(st, [item])
  {
    BulletLine(item);
  }

  lemma {:induction false} WarningsFeed(st: State, items: seq<string>)
    requires st.section.Warnings? && forall item | item in items :: KeptItem(item)
    ensures Feed(READER, st, BulletLines(items)) == WithWarnings(st, items)
    decreases |items|
  {
    if items != [] {
      var first, rest := items[0], items[1..];
      assert items == [first] + rest;
      WarningLine(st, first);
      FeedLine(READER, st, "- " + first, BulletLines(rest));
      WarningsFeed(WithWarnings(st, [first]), rest);
      WarningsAndMore(st, [first], rest);
    }
  }

  lemma WarningsRead(st: State, warnings: Option<seq<string>>)
    requires GoodWarnings(warnings) && st.doc.warnings == None
    ensures Feed(READER, st, WarningSection(warnings))
         == st.(section := if warnings.Some? then Warnings else st.section, doc := st.doc.(warnings := warnings))
  {
    if warnings.Some? {
      assert ToLowerCase("Warnings") == "warnings";
      BlankIsSkipped(st);
      BlankIsSkipped(st.(section := Warnings));
      SectionOpened(READER, st, "Warnings", Warnings);
      FeedAppended(READER, st, SectionOpening("Warnings"), BulletLines(warnings.value));
      WarningsFeed(st.(section := Warnings), warnings.value);
      assert [] + warnings.value == warnings.value;
    }
  }

  // The document.

  /** Parsing what was printed gives every well-formed summary back. */
  lemma {:induction false} RoundTrip(s: SubAgentSummary)
    requires WellFormed(s)
    ensures Parse(Format(s)) == s
  {
    var st0 := Reading(Metadata, [], BLANK.(taskId := s.taskId, agentId := s.agentId, completedAt := s.completedAt));
    var st1 := st0.(section := Result, doc := st0.doc.(result := s.result));
    var st2 := st1.(section := Summary, prose := ProseLines(s.summary));
    var st3 := st2.(section := Deliverables, doc := st2.doc.(deliverables := s.deliverables));
    var st4 := st3.(section := if s.testResults.Some? then Tests else Deliverables,
                    doc := st3.doc.(testResults := s.testResults));
    var st5 := st4.(section := if s.warnings.Some? then Warnings else st4.section, doc := st4.doc.(warnings := s.warnings));
    HeadRead(s);
    ResultRead(st0, s.result);
    SummaryRead(st1, s.summary);
    DeliverablesRead(st2, s.deliverables);
    TestsRead(st3, s.testResults);
    WarningsRead(st4, s.warnings);
    FeedFiveMore(READER, START, HeadLines(s), ResultSection(s.result), SummarySection(s.summary),
                 DeliverableSection(s.deliverables), TestSection(s.testResults), WarningSection(s.warnings));
    BlankIsSkipped(st5);
    DocumentRead(READER, START, FormatLines(s), st5);
    JoinSplit(s.summary, '\n');
  }

  /** The summaries that survive printing and parsing are exactly the well-formed ones; an empty warning list does not. */
  lemma {:induction false} SurvivesIffWellFormed(s: SubAgentSummary)
    ensures Parse(Format(s)) == s <==> WellFormed(s)
  {
    ParsedIsWellFormed(Format(s));
    if WellFormed(s) {
      RoundTrip(s);
    }
  }

  /** Printing a parsed document and parsing it again changes nothing. */
  lemma {:induction false} ParsedSurvives(markdown: string)
    ensures Parse(Format(Parse(markdown))) == Parse(markdown)
  {
    ParsedIsWellFormed(markdown);
    RoundTrip(Parse(markdown));
  }

  // ----- The source's loops -----

  method FormatSummaryMarkdown(s: SubAgentSummary) returns (markdown: string)
    ensures markdown == Format(s)
  {
    var lines := HeadLines(s) + ResultSection(s.result) + SummarySection(s.summary);
    lines := PushDeliverables(lines, s.deliverables);
    lines := lines + TestSection(s.testResults);
    lines := PushWarnings(lines, s.warnings);
    lines := lines + [""];
    markdown := Join(lines, '\n');
  }

  method PushDeliverables(before: seq<string>, items: seq<string>) returns (lines: seq<string>)
    ensures lines == before + DeliverableSection(items)
  {
    lines := PushBullets(before + SectionOpening("Deliverables"), items);
    Regroup(before, SectionOpening("Deliverables"), Bullets(items));
  }

  method PushWarnings(before: seq<string>, warnings: Option<seq<string>>) returns (lines: seq<string>)
    ensures lines == before + WarningSection(warnings)
  {
    if warnings.Some? && |warnings.value| > 0 {
      lines := PushBullets(before + SectionOpening("Warnings"), warnings.value);
      Regroup(before, SectionOpening("Warnings"), BulletLines(warnings.value));
    } else {
      lines := before;
      assert before + [] == before;
    }
  }

  lemma Regroup(a: seq<string>, b: seq<string>, c: seq<string>)
    ensures a + b + c == a + (b + c)
  {
  }

  method ParseSummaryMarkdown(markdown: string) returns (s: SubAgentSummary)
    ensures s == Parse(markdown)
  {
    var lines := Split(markdown, '\n');
    s := BLANK;
    var currentSection := Elsewhere;
    var summaryLines: seq<string> := [];
    for i := 0 to |lines|
      invariant Fold(READER, START, lines) == Fold(READER, Reading(currentSection, summaryLines, s), lines[i..])
    {
      assert lines[i..][0] == lines[i] && lines[i..][1..] == lines[i + 1..];
      var line := Trim(lines[i]);
      if StartsWith(line, "## ") {
        currentSection := SectionNamed(ToLowerCase(Trim(line[3..])));
        continue;
      }
      if currentSection == Metadata {
        s := SetField(s, MetadataField(line), line);
      }
      if currentSection == Result {
        s := ReadResult(s, line);
      }
      if currentSection == Summary {
        if IsProse(line) {
          summaryLines := summaryLines + [line];
        }
      }
      if currentSection == Deliverables && StartsWith(line, "- ") && line != "- None" {
        s := s.(deliverables := s.deliverables + [line[2..]]);
      }
      if currentSection == Tests {
        s := SetCount(s, TestField(line), FirstNumber(line));
      }
      if currentSection == Warnings && StartsWith(line, "- ") {
        s := AddWarning(s, line[2..]);
      }
    }
    s := s.(summary := Join(summaryLines, '\n'));
  }
}
