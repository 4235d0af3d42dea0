/** Handoff notes: the Markdown printer and the parser that reads its output back. */
module Handoff {
  import opened LineReader
  import opened Text

  datatype HandoffNote = HandoffNote(
    taskId: string,
    timestamp: string,
    trigger: string,
    current: string,
    progress: string,
    blockers: seq<string>,
    nextSteps: seq<string>,
    keyDecisions: seq<string>,
    artifacts: seq<string>,
    dependencies: seq<string>
  )

  const EMPTY_NOTE := HandoffNote("", "", "manual", "", "", [], [], [], [], [])
  const UNSPECIFIED := "(not specified)"
  const TASK_ID := "- **Task ID**"
  const TIMESTAMP := "- **Timestamp**"
  const TRIGGER := "- **Trigger**"
  const STATUS := "- **Status**"

  // ----- Printing -----

  function ListSection(title: string, items: seq<string>): seq<string> {
    SectionOpening(title) + Bullets(items)
  }

  const HEADING := "Handoff Note"

  function MetadataLines(note: HandoffNote): seq<string> {
    [Labelled(TASK_ID, note.taskId), Labelled(TIMESTAMP, note.timestamp), Labelled(TRIGGER, note.trigger),
     Labelled(STATUS, StatusText(note))]
  }

  function StatusText(note: HandoffNote): string {
    if note.current == "" then UNSPECIFIED else note.current
  }

  function ProgressLines(note: HandoffNote): seq<string> {
    SectionOpening("Progress") + [note.progress]
  }

  function HeadLines(note: HandoffNote): seq<string> {
    Opening(HEADING) + MetadataLines(note) + ProgressLines(note)
  }

  /** The entries of the document, before the empty last one. */
  function FormatLines(note: HandoffNote): seq<string> {
    HeadLines(note)
    + ListSection("Blockers", note.blockers)
    + ListSection("Next Steps", note.nextSteps)
    + ListSection("Key Decisions", note.keyDecisions)
    + ListSection("Artifacts", note.artifacts)
    + ListSection("Dependencies", note.dependencies)
  }

  /** The lines of the head, label by label. */
  lemma PrintedHead(note: HandoffNote)
    ensures HeadLines(note)
         == ["# Handoff Note", "", "## Metadata", "",
             "- **Task ID**: " + note.taskId, "- **Timestamp**: " + note.timestamp, "- **Trigger**: " + note.trigger,
             "- **Status**: " + (if note.current == "" then "(not specified)" else note.current),
             "", "## Progress", "", note.progress]
  {
    LabelledIs(TASK_ID, "- **Task ID**: ", note.taskId);
    LabelledIs(TIMESTAMP, "- **Timestamp**: ", note.timestamp);
    LabelledIs(TRIGGER, "- **Trigger**: ", note.trigger);
    LabelledIs(STATUS, "- **Status**: ", StatusText(note));
    assert "# " + HEADING == "# Handoff Note";
    OpeningIs("Progress", "## Progress");
  }

  /** The sections of the lists, in their order. */
  lemma PrintedLists(note: HandoffNote)
    ensures FormatLines(note)
         == HeadLines(note)
            + (["", "## Blockers", ""] + Bullets(note.blockers))
            + (["", "## Next Steps", ""] + Bullets(note.nextSteps))
            + (["", "## Key Decisions", ""] + Bullets(note.keyDecisions))
            + (["", "## Artifacts", ""] + Bullets(note.artifacts))
            + (["", "## Dependencies", ""] + Bullets(note.dependencies))
  {
    OpeningIs("Blockers", "## Blockers");
    OpeningIs("Next Steps", "## Next Steps");
    OpeningIs("Key Decisions", "## Key Decisions");
    OpeningIs("Artifacts", "## Artifacts");
    OpeningIs("Dependencies", "## Dependencies");
  }

  function Format(note: HandoffNote): string {
    Join(FormatLines(note) + [""], '\n')
  }

  // ----- Parsing -----

  datatype Section = Elsewhere | Metadata | Progress | Blockers | NextSteps | KeyDecisions | Artifacts | Dependencies

  function SectionNamed(name: string): Section {
    if name == "metadata" then Metadata
    else if name == "progress" then Progress
    else if name == "blockers" then Blockers
    else if name == "next steps" then NextSteps
    else if name == "key decisions" then KeyDecisions
    else if name == "artifacts" then Artifacts
    else if name == "dependencies" then Dependencies
    else Elsewhere
  }

  type State = Reading<Section, HandoffNote>

  const START: State := Reading(Elsewhere, [], EMPTY_NOTE)

  predicate IsList(section: Section) {
    !section.Elsewhere? && !section.Metadata? && !section.Progress?
  }

  function ItemsOf(note: HandoffNote, section: Section): seq<string>
    requires IsList(section)
  {
    match section
    case Blockers => note.blockers
    case NextSteps => note.nextSteps
    case KeyDecisions => note.keyDecisions
    case Artifacts => note.artifacts
    case Dependencies => note.dependencies
  }

  function WithItems(note: HandoffNote, section: Section, items: seq<string>): HandoffNote
    requires IsList(section)
  {
    match section
    case Blockers => note.(blockers := items)
    case NextSteps => note.(nextSteps := items)
    case KeyDecisions => note.(keyDecisions := items)
    case Artifacts => note.(artifacts := items)
    case Dependencies => note.(dependencies := items)
  }

  datatype Field = NoField | TaskId | Timestamp | Trigger | Status

  function FieldOf(line: string): Field {
    if StartsWith(line, TASK_ID + ":") then TaskId
    else if StartsWith(line, TIMESTAMP + ":") then Timestamp
    else if StartsWith(line, TRIGGER + ":") then Trigger
    else if StartsWith(line, STATUS + ":") then Status
    else NoField
  }

  function SetField(note: HandoffNote, field: Field, line: string): HandoffNote {
    match field
    case NoField => note
    case TaskId => note.(taskId := FieldAfterColon(line))
    case Timestamp => note.(timestamp := RestAfterColon(line))
    case Trigger => note.(trigger := FieldAfterColon(line))
    case Status =>
      var status := FieldAfterColon(line);
      note.(current := if status == UNSPECIFIED then "" else status)
  }

  function AddItem(note: HandoffNote, section: Section, item: string): HandoffNote {
    if IsList(section) && item != "None" then WithItems(note, section, ItemsOf(note, section) + [item]) else note
  }

  /** A trimmed line that is not a title. */
  function ReadLine(st: State, line: string): State {
    var note := if st.section.Metadata? then SetField(st.doc, FieldOf(line), line) else st.doc;
    var progressLines := if st.section.Progress? && IsProse(line) then st.prose + [line] else st.prose;
    Reading(st.section, progressLines, if StartsWith(line, "- ") && line != "- " then AddItem(note, st.section, line[2..]) else note)
  }

  const READER := Reader(SectionNamed, ReadLine)

  function Finish(st: State): HandoffNote {
    st.doc.(progress := Join(st.prose, '\n'))
  }

  function Parse(markdown: string): HandoffNote {
    Finish(Fold(READER, START, Split(markdown, '\n')))
  }

  /** A text without titles reads as the empty note, triggered by hand. */
  lemma UntitledIsEmpty(markdown: string)
    requires forall line | line in Split(markdown, '\n') :: !StartsWith(Trim(line), "## ")
    ensures Parse(markdown) == HandoffNote("", "", "manual", "", "", [], [], [], [], [])
  {
    forall line
      ensures READER.read(START, line) == START
    {
      assert READER.read(START, line) == ReadLine(START, line);
    }
    UntitledChangesNothing(READER, START, Split(markdown, '\n'));
  }

  /** The progress is the lines under its title that are neither empty nor headings. */
  lemma ProgressIsRead(st: State, line: string)
    requires st.section.Progress?
    ensures ReadLine(st, line).prose == if line == "" || line[0] == '#' then st.prose else st.prose + [line]
  {
    assert line != "" ==> (StartsWith(line, "#") <==> line[0] == '#');
  }

  /** What stands under any other title is ignored. */
  lemma OtherSectionsAreIgnored(st: State, line: string, title: string, lines: seq<string>)
    requires IsTitle(line, title) && forall x | x in lines :: !StartsWith(Trim(x), "## ")
    requires title !in {"metadata", "progress", "blockers", "next steps", "key decisions", "artifacts", "dependencies"}
    ensures var st' := Fold(READER, st, [line] + lines); st'.doc == st.doc && st'.prose == st.prose
  {
    var st0 := st.(section := READER.sectionNamed(title));
    forall x
      ensures READER.read(st0, x) == st0
    {
      assert READER.read(st0, x) == ReadLine(st0, x);
    }
    IgnoredSection(READER, st, line, title, lines);
  }

  // ----- Which notes survive -----

  predicate WellFormedFields(note: HandoffNote) {
    && OneLine(note.taskId) && ':' !in note.taskId
    && OneLine(note.timestamp)
    && OneLine(note.trigger) && ':' !in note.trigger
    && OneLine(note.current) && ':' !in note.current && note.current != UNSPECIFIED
    && GoodItems(note.blockers) && GoodItems(note.nextSteps)
    && GoodItems(note.keyDecisions) && GoodItems(note.artifacts) && GoodItems(note.dependencies)
  }

  predicate WellFormed(note: HandoffNote) {
    WellFormedFields(note) && PlainText(note.progress)
  }

  // ----- Everything parsed is well formed -----

  lemma FieldStaysSound(note: HandoffNote, field: Field, line: string)
    requires WellFormedFields(note) && '\n' !in line
    ensures WellFormedFields(SetField(note, field, line))
  {
    FieldCharacters(line, '\n');
  }

  lemma ItemStaysSound(note: HandoffNote, section: Section, line: string)
    requires WellFormedFields(note) && OneLine(line) && StartsWith(line, "- ") && line != "- "
    ensures WellFormedFields(AddItem(note, section, line[2..]))
  {
    BulletItem(line);
  }

  lemma LineStaysSound(st: State, line: string)
    requires Sound(WellFormedFields, st) && OneLine(line)
    ensures Sound(WellFormedFields, ReadLine(st, line))
  {
    FieldStaysSound(st.doc, FieldOf(line), line);
    var note := if st.section.Metadata? then SetField(st.doc, FieldOf(line), line) else st.doc;
    if StartsWith(line, "- ") && line != "- " {
      ItemStaysSound(note, st.section, line);
    }
  }

  lemma ParsedIsWellFormed(markdown: string)
    ensures WellFormed(Parse(markdown))
  {
    forall st, line | Sound(WellFormedFields, st) && OneLine(line)
      ensures Sound(WellFormedFields, READER.read(st, line))
    {
      LineStaysSound(st, line);
    }
    LinesStaySound(READER, WellFormedFields, START, Split(markdown, '\n'));
    ProseIsPlain(Fold(READER, START, Split(markdown, '\n')).prose);
  }

  // ----- Well-formed notes survive -----

  lemma BlankIsSkipped(st: State)
    ensures READER.read(st, "") == st
  {
  }

  // Metadata lines.

  lemma FieldNames(line: string)
    ensures StartsWith(line, TASK_ID + ":") ==> FieldOf(line) == TaskId
    ensures StartsWith(line, TIMESTAMP + ":") ==> FieldOf(line) == Timestamp
    ensures StartsWith(line, TRIGGER + ":") ==> FieldOf(line) == Trigger
    ensures StartsWith(line, STATUS + ":") ==> FieldOf(line) == Status
  {
    assert (TASK_ID + ":")[5] == 'a' && (TIMESTAMP + ":")[5] == 'i' && (TRIGGER + ":")[5] == 'r' && (STATUS + ":")[5] == 't';
  }

  predicate Names(name: string, field: Field) {
    match field
    case NoField => false
    case TaskId => name == TASK_ID
    case Timestamp => name == TIMESTAMP
    case Trigger => name == TRIGGER
    case Status => name == STATUS
  }

  lemma NamesAreLabels(name: string, field: Field)
    requires Names(name, field)
    ensures name != "" && name[0] == '-' && Trimmed(name + ":") && ':' !in name && '\n' !in name
  {
  }

  lemma MetadataLine(st: State, name: string, value: string, field: Field)
    requires st.section.Metadata? && Trimmed(value) && Names(name, field)
    requires field.Timestamp? || ':' !in value
    ensures ParseLine(READER, st, Labelled(name, value)) == st.(doc := WithField(st.doc, field, value))
  {
    NamesAreLabels(name, field);
    ReadField(name, value);
    var line := Trim(Labelled(name, value));
    FieldNames(line);
    NotTitle(line);
  }

  function WithField(note: HandoffNote, field: Field, value: string): HandoffNote {
    match field
    case NoField => note
    case TaskId => note.(taskId := value)
    case Timestamp => note.(timestamp := value)
    case Trigger => note.(trigger := value)
    case Status => note.(current := if value == UNSPECIFIED then "" else value)
  }

  lemma StatusLine(st: State, note: HandoffNote)
    requires st.section.Metadata? && WellFormed(note)
    ensures ParseLine(READER, st, Labelled(STATUS, StatusText(note))) == st.(doc := st.doc.(current := note.current))
  {
    MetadataLine(st, STATUS, StatusText(note), Status);
  }

  lemma MetadataEntry(note: HandoffNote)
    requires WellFormed(note)
    ensures forall entry | entry in MetadataLines(note) :: '\n' !in entry
  {
    NamesAreLabels(TASK_ID, TaskId);
    NamesAreLabels(TIMESTAMP, Timestamp);
    NamesAreLabels(TRIGGER, Trigger);
    NamesAreLabels(STATUS, Status);
    LabelledCharacters(TASK_ID, note.taskId, '\n');
    LabelledCharacters(TIMESTAMP, note.timestamp, '\n');
    LabelledCharacters(TRIGGER, note.trigger, '\n');
    LabelledCharacters(STATUS, StatusText(note), '\n');
  }

  lemma HeadingRead()
    ensures Feed(READER, START, Opening(HEADING)) == START.(section := Metadata)
  {
    BlankIsSkipped(START);
    BlankIsSkipped(START.(section := Metadata));
    OpeningRead(READER, START, HEADING, Metadata);
  }

  lemma IdentityRead(st: State, note: HandoffNote)
    requires WellFormed(note) && st.section.Metadata?
    ensures ParseLine(READER, ParseLine(READER, st, Labelled(TASK_ID, note.taskId)), Labelled(TIMESTAMP, note.timestamp))
         == st.(doc := st.doc.(taskId := note.taskId, timestamp := note.timestamp))
  {
    var st' := st.(doc := WithField(st.doc, TaskId, note.taskId));
    MetadataLine(st, TASK_ID, note.taskId, TaskId);
    MetadataLine(st', TIMESTAMP, note.timestamp, Timestamp);
  }

  lemma StateRead(st: State, note: HandoffNote)
    requires WellFormed(note) && st.section.Metadata?
    ensures ParseLine(READER, ParseLine(READER, st, Labelled(TRIGGER, note.trigger)), Labelled(STATUS, StatusText(note)))
         == st.(doc := st.doc.(trigger := note.trigger, current := note.current))
  {
    var st' := st.(doc := WithField(st.doc, Trigger, note.trigger));
    MetadataLine(st, TRIGGER, note.trigger, Trigger);
    StatusLine(st', note);
  }

  /** The metadata block sets the four fields. */
  lemma MetadataRead(st: State, note: HandoffNote)
    requires WellFormed(note) && st.section.Metadata?
    ensures Feed(READER, st, MetadataLines(note))
         == st.(doc := st.doc.(taskId := note.taskId, timestamp := note.timestamp, trigger := note.trigger, current := note.current))
  {
    var st' := st.(doc := st.doc.(taskId := note.taskId, timestamp := note.timestamp));
    IdentityRead(st, note);
    StateRead(st', note);
    MetadataEntry(note);
    FourRead(st, MetadataLines(note));
  }

  lemma FourRead(st: State, lines: seq<string>)
    requires |lines| == 4 && forall line | line in lines :: '\n' !in line
    ensures Feed(READER, st, lines)
         == ParseLine(READER, ParseLine(READER, ParseLine(READER, ParseLine(READER, st, lines[0]), lines[1]), lines[2]), lines[3])
  {
    assert lines == [lines[0], lines[1], lines[2], lines[3]];
    FeedFour(READER, st, lines[0], lines[1], lines[2], lines[3]);
  }

  // Progress.

  lemma ProgressRead(st: State, note: HandoffNote)
    requires WellFormed(note) && st.prose == []
    ensures Feed(READER, st, ProgressLines(note)) == st.(section := Progress, prose := ProseLines(note.progress))
  {
    assert ToLowerCase("Progress") == "progress";
    BlankIsSkipped(st);
    BlankIsSkipped(st.(section := Progress));
    ProseRead(READER, st, "Progress", Progress, note.progress);
  }

  // Lists.

  function WithMore(st: State, items: seq<string>): State
    requires IsList(st.section)
  {
    st.(doc := WithItems(st.doc, st.section, ItemsOf(st.doc, st.section) + items))
  }

  lemma MoreAndMore(st: State, a: seq<string>, b: seq<string>)
    requires IsList(st.section)
    ensures WithMore(st, []) == st
    ensures WithMore(WithMore(st, a), b) == WithMore(st, a + b)
  {
    var before := ItemsOf(st.doc, st.section);
    assert before + [] == before;
    assert before + a + b == before + (a + b);
  }

  lemma ItemLine(st: State, item: string)
    requires IsList(st.section) && GoodItem(item)
    ensures ParseLine(READER, st, "- " + item) == WithMore(st, [item])
  {
    BulletLine(item);
  }

  lemma {:induction false} ItemsFeed(st: State, items: seq<string>)
    requires IsList(st.section) && GoodItems(items)
    ensures Feed(READER, st, BulletLines(items)) == WithMore(st, items)
    decreases |items|
  {
    if items == [] {
      MoreAndMore(st, [], []);
    } else {
      var first, rest := items[0], items[1..];
      assert items == [first] + rest;
      ItemLine(st, first);
      FeedLine(READER, st, "- " + first, BulletLines(rest));
      ItemsFeed(WithMore(st, [first]), rest);
      MoreAndMore(st, [first], rest);
    }
  }

  lemma NoneLine(st: State)
    requires IsList(st.section)
    ensures ParseLine(READER, st, "None") == st
  {
  }

  lemma BulletsRead(st: State, items: seq<string>)
    requires IsList(st.section) && GoodItems(items)
    ensures Feed(READER, st, Bullets(items)) == WithMore(st, items)
  {
    if items == [] {
      NoneLine(st);
      FeedOne(READER, st, "None");
      MoreAndMore(st, [], []);
    } else {
      ItemsFeed(st, items);
    }
  }

  lemma ListRead(st: State, title: string, section: Section, items: seq<string>)
    requires IsList(section) && GoodItems(items) && ItemsOf(st.doc, section) == []
    requires Titles(READER, title, section)
    ensures Feed(READER, st, ListSection(title, items)) == st.(section := section, doc := WithItems(st.doc, section, items))
  {
    var st' := st.(section := section);
    BlankIsSkipped(st);
    BlankIsSkipped(st');
    SectionOpened(READER, st, title, section);
    FeedAppended(READER, st, SectionOpening(title), Bullets(items));
    BulletsRead(st', items);
    assert [] + items == items;
  }

  lemma BlockersRead(st: State, items: seq<string>)
    requires GoodItems(items) && st.doc.blockers == []
    ensures Feed(READER, st, ListSection("Blockers", items)) == st.(section := Blockers, doc := st.doc.(blockers := items))
  {
    assert ToLowerCase("Blockers") == "blockers";
    ListRead(st, "Blockers", Blockers, items);
  }

  lemma NextStepsRead(st: State, items: seq<string>)
    requires GoodItems(items) && st.doc.nextSteps == []
    ensures Feed(READER, st, ListSection("Next Steps", items)) == st.(section := NextSteps, doc := st.doc.(nextSteps := items))
  {
    assert ToLowerCase("Next Steps") == "next steps";
    ListRead(st, "Next Steps", NextSteps, items);
  }

  lemma KeyDecisionsRead(st: State, items: seq<string>)
    requires GoodItems(items) && st.doc.keyDecisions == []
    ensures Feed(READER, st, ListSection("Key Decisions", items)) == st.(section := KeyDecisions, doc := st.doc.(keyDecisions := items))
  {
    assert ToLowerCase("Key Decisions") == "key decisions";
    ListRead(st, "Key Decisions", KeyDecisions, items);
  }

  lemma ArtifactsRead(st: State, items: seq<string>)
    requires GoodItems(items) && st.doc.artifacts == []
    ensures Feed(READER, st, ListSection("Artifacts", items)) == st.(section := Artifacts, doc := st.doc.(artifacts := items))
  {
    assert ToLowerCase("Artifacts") == "artifacts";
    ListRead(st, "Artifacts", Artifacts, items);
  }

  lemma DependenciesRead(st: State, items: seq<string>)
    requires GoodItems(items) && st.doc.dependencies == []
    ensures Feed(READER, st, ListSection("Dependencies", items)) == st.(section := Dependencies, doc := st.doc.(dependencies := items))
  {
    assert ToLowerCase("Dependencies") == "dependencies";
    ListRead(st, "Dependencies", Dependencies, items);
  }

  // The document.

  function Head(note: HandoffNote): HandoffNote {
    HandoffNote(note.taskId, note.timestamp, note.trigger, note.current, "", [], [], [], [], [])
  }

  lemma HeadRead(note: HandoffNote)
    requires WellFormed(note)
    ensures Feed(READER, START, HeadLines(note)) == Reading(Progress, ProseLines(note.progress), Head(note))
  {
    var st := START.(section := Metadata);
    HeadingRead();
    MetadataRead(st, note);
    ProgressRead(st.(doc := Head(note)), note);
    FeedAppended(READER, START, Opening(HEADING), MetadataLines(note));
    FeedAppended(READER, START, Opening(HEADING) + MetadataLines(note), ProgressLines(note));
  }

  lemma ListsRead(note: HandoffNote, st: State)
    requires WellFormed(note) && st.doc == Head(note)
    ensures Feed(READER,
                 Feed(READER,
                      Feed(READER,
                           Feed(READER,
                                Feed(READER, st, ListSection("Blockers", note.blockers)),
                                ListSection("Next Steps", note.nextSteps)),
                           ListSection("Key Decisions", note.keyDecisions)),
                      ListSection("Artifacts", note.artifacts)),
                 ListSection("Dependencies", note.dependencies))
         == Reading(Dependencies, st.prose, note.(progress := ""))
  {
    var st1 := st.(section := Blockers, doc := st.doc.(blockers := note.blockers));
    var st2 := st1.(section := NextSteps, doc := st1.doc.(nextSteps := note.nextSteps));
    var st3 := st2.(section := KeyDecisions, doc := st2.doc.(keyDecisions := note.keyDecisions));
    var st4 := st3.(section := Artifacts, doc := st3.doc.(artifacts := note.artifacts));
    BlockersRead(st, note.blockers);
    NextStepsRead(st1, note.nextSteps);
    KeyDecisionsRead(st2, note.keyDecisions);
    ArtifactsRead(st3, note.artifacts);
    DependenciesRead(st4, note.dependencies);
  }

  /** Parsing what was printed gives every well-formed note back. */
  lemma {:induction false} RoundTrip(note: HandoffNote)
    requires WellFormed(note)
    ensures Parse(Format(note)) == note
  {
    var st := Reading(Progress, ProseLines(note.progress), Head(note));
    var end := Reading(Dependencies, ProseLines(note.progress), note.(progress := ""));
    HeadRead(note);
    ListsRead(note, st);
    FeedFiveMore(READER, START, HeadLines(note), ListSection("Blockers", note.blockers),
                 ListSection("Next Steps", note.nextSteps), ListSection("Key Decisions", note.keyDecisions),
                 ListSection("Artifacts", note.artifacts), ListSection("Dependencies", note.dependencies));
    BlankIsSkipped(end);
    DocumentRead(READER, START, FormatLines(note), end);
    JoinSplit(note.progress, '\n');
  }

  /** The notes that survive printing and parsing are exactly the well-formed ones. */
  lemma {:induction false} SurvivesIffWellFormed(note: HandoffNote)
    ensures Parse(Format(note)) == note <==> WellFormed(note)
  {
    ParsedIsWellFormed(Format(note));
    if WellFormed(note) {
      RoundTrip(note);
    }
  }

  /** Printing a parsed document and parsing it again changes nothing. */
  lemma {:induction false} ParsedSurvives(markdown: string)
    ensures Parse(Format(Parse(markdown))) == Parse(markdown)
  {
    ParsedIsWellFormed(markdown);
    RoundTrip(Parse(markdown));
  }

  // ----- The source's loops -----

  method PushSection(before: seq<string>, title: string, items: seq<string>) returns (lines: seq<string>)
    ensures lines == before + ListSection(title, items)
  {
    lines := before + ["", "## " + title, ""];
    lines := PushBullets(lines, items);
    assert before + ListSection(title, items) == before + SectionOpening(title) + Bullets(items);
  }

  method FormatHandoffMarkdown(note: HandoffNote) returns (markdown: string)
    ensures markdown == Format(note)
  {
    var lines := HeadLines(note);
    lines := PushSection(lines, "Blockers", note.blockers);
    lines := PushSection(lines, "Next Steps", note.nextSteps);
    lines := PushSection(lines, "Key Decisions", note.keyDecisions);
    lines := PushSection(lines, "Artifacts", note.artifacts);
    lines := PushSection(lines, "Dependencies", note.dependencies);
    lines := lines + [""];
    markdown := Join(lines, '\n');
  }

  method ParseHandoffMarkdown(markdown: string) returns (note: HandoffNote)
    ensures note == Parse(markdown)
  {
    var lines := Split(markdown, '\n');
    note := EMPTY_NOTE;
    var currentSection := Elsewhere;
    var progressLines: seq<string> := [];
    for i := 0 to |lines|
      invariant Fold(READER, START, lines) == Fold(READER, Reading(currentSection, progressLines, note), lines[i..])
    {
      assert lines[i..][0] == lines[i] && lines[i..][1..] == lines[i + 1..];
      var line := Trim(lines[i]);
      if StartsWith(line, "## ") {
        currentSection := SectionNamed(ToLowerCase(Trim(line[3..])));
        continue;
      }
      if currentSection == Metadata {
        note := SetField(note, FieldOf(line), line);
      }
      if currentSection == Progress {
        if IsProse(line) {
          progressLines := progressLines + [line];
        }
      }
      if StartsWith(line, "- ") && line != "- " {
        note := AddItem(note, currentSection, line[2..]);
      }
    }
    note := note.(progress := Join(progressLines, '\n'));
  }
}
