/** Reading a Markdown report line by line: what the handoff and summary parsers share. */
module LineReader {
  import opened Text

  /** Where a parser stands: the current section, the lines of free text and the document so far. */
  datatype Reading<Sec, Doc> = Reading(section: Sec, prose: seq<string>, doc: Doc)

  /** A parser: the sections its titles open, and what it does with a trimmed line that is not a title. */
  datatype Reader<!Sec, !Doc> = Reader(
    sectionNamed: string -> Sec,
    read: (Reading<Sec, Doc>, string) -> Reading<Sec, Doc>
  )

  function ParseLine<Sec, Doc>(r: Reader<Sec, Doc>, st: Reading<Sec, Doc>, raw: string): Reading<Sec, Doc> {
    var line := Trim(raw);
    if StartsWith(line, "## ") then st.(section := r.sectionNamed(ToLowerCase(Trim(line[3..])))) else r.read(st, line)
  }

  function Fold<Sec, Doc>(r: Reader<Sec, Doc>, st: Reading<Sec, Doc>, lines: seq<string>): Reading<Sec, Doc>
    decreases |lines|
  {
    if lines == [] then st else Fold(r, ParseLine(r, st, lines[0]), lines[1..])
  }

  /** Without a title, lines that a section ignores change nothing. */
  lemma {:induction false} UntitledChangesNothing<Sec, Doc>(r: Reader<Sec, Doc>, st: Reading<Sec, Doc>, lines: seq<string>)
    requires forall line | line in lines :: !StartsWith(Trim(line), "## ")
    requires forall line :: r.read(st, line) == st
    ensures Fold(r, st, lines) == st
    decreases |lines|
  {
    if lines != [] {
      assert lines[0] in lines;
      UntitledChangesNothing(r, st, lines[1..]);
    }
  }

  /** The title of a line that opens a section, in lower case. */
  ghost predicate IsTitle(line: string, title: string) {
    StartsWith(Trim(line), "## ") && title == ToLowerCase(Trim(Trim(line)[3..]))
  }

  /** A section that ignores its lines changes nothing. */
  lemma IgnoredSection<Sec, Doc>(r: Reader<Sec, Doc>, st: Reading<Sec, Doc>, line: string, title: string, lines: seq<string>)
    requires IsTitle(line, title) && forall x | x in lines :: !StartsWith(Trim(x), "## ")
    requires forall x :: r.read(st.(section := r.sectionNamed(title)), x) == st.(section := r.sectionNamed(title))
    ensures Fold(r, st, [line] + lines).doc == st.doc && Fold(r, st, [line] + lines).prose == st.prose
  {
    assert ([line] + lines)[1..] == lines;
    UntitledChangesNothing(r, st.(section := r.sectionNamed(title)), lines);
  }

  /** The state after the text of each entry. */
  function Feed<Sec, Doc>(r: Reader<Sec, Doc>, st: Reading<Sec, Doc>, entries: seq<string>): Reading<Sec, Doc>
    decreases |entries|
  {
    if entries == [] then st else Feed(r, Fold(r, st, Split(entries[0], '\n')), entries[1..])
  }

  lemma {:induction false} FoldAppended<Sec, Doc>(r: Reader<Sec, Doc>, st: Reading<Sec, Doc>, a: seq<string>, b: seq<string>)
    ensures Fold(r, st, a + b) == Fold(r, Fold(r, st, a), b)
    decreases |a|
  {
    if a == [] {
      assert a + b == b;
    } else {
      assert (a + b)[1..] == a[1..] + b;
      FoldAppended(r, ParseLine(r, st, a[0]), a[1..], b);
    }
  }

  lemma {:induction false} FeedAppended<Sec, Doc>(r: Reader<Sec, Doc>, st: Reading<Sec, Doc>, a: seq<string>, b: seq<string>)
    ensures Feed(r, st, a + b) == Feed(r, Feed(r, st, a), b)
    decreases |a|
  {
    if a == [] {
      assert a + b == b;
    } else {
      assert (a + b)[1..] == a[1..] + b;
      FeedAppended(r, Fold(r, st, Split(a[0], '\n')), a[1..], b);
    }
  }

  /** Joining the entries and splitting the document into lines amounts to splitting each entry. */
  lemma {:induction false} FeedIsFold<Sec, Doc>(r: Reader<Sec, Doc>, st: Reading<Sec, Doc>, entries: seq<string>)
    requires entries != []
    ensures Fold(r, st, Split(Join(entries, '\n'), '\n')) == Feed(r, st, entries)
    decreases |entries|
  {
    var st' := Fold(r, st, Split(entries[0], '\n'));
    if |entries| > 1 {
      SplitAt(entries[0], '\n', Join(entries[1..], '\n'));
      FoldAppended(r, st, Split(entries[0], '\n'), Split(Join(entries[1..], '\n'), '\n'));
      FeedIsFold(r, st', entries[1..]);
    } else {
      assert Feed(r, st', entries[1..]) == st';
    }
  }

  lemma FeedLine<Sec, Doc>(r: Reader<Sec, Doc>, st: Reading<Sec, Doc>, line: string, rest: seq<string>)
    requires '\n' !in line
    ensures Feed(r, st, [line] + rest) == Feed(r, ParseLine(r, st, line), rest)
  {
    SplitWhole(line, '\n');
    assert ([line] + rest)[0] == line && ([line] + rest)[1..] == rest;
    assert Fold(r, st, [line]) == ParseLine(r, st, line) by {
      assert [line][1..] == [];
    }
  }

  /** Entries of one line each take the reader through the given states. */
  lemma {:induction false} FeedRun<Sec, Doc>(r: Reader<Sec, Doc>, states: seq<Reading<Sec, Doc>>, lines: seq<string>)
    requires |states| == |lines| + 1
    requires forall i | 0 <= i < |lines| :: '\n' !in lines[i] && ParseLine(r, states[i], lines[i]) == states[i + 1]
    ensures Feed(r, states[0], lines) == states[|lines|]
    decreases |lines|
  {
    if lines != [] {
      FeedLine(r, states[0], lines[0], lines[1..]);
      assert lines == [lines[0]] + lines[1..];
      FeedRun(r, states[1..], lines[1..]);
    }
  }

  lemma FeedFour<Sec, Doc>(r: Reader<Sec, Doc>, st: Reading<Sec, Doc>, a: string, b: string, c: string, d: string)
    requires '\n' !in a && '\n' !in b && '\n' !in c && '\n' !in d
    ensures Feed(r, st, [a, b, c, d]) == ParseLine(r, ParseLine(r, ParseLine(r, ParseLine(r, st, a), b), c), d)
  {
    var s1 := ParseLine(r, st, a);
    var s2 := ParseLine(r, s1, b);
    var s3 := ParseLine(r, s2, c);
    FeedRun(r, [st, s1, s2, s3, ParseLine(r, s3, d)], [a, b, c, d]);
  }

  lemma FeedThree<Sec, Doc>(r: Reader<Sec, Doc>, st: Reading<Sec, Doc>, a: string, b: string, c: string)
    requires '\n' !in a && '\n' !in b && '\n' !in c
    ensures Feed(r, st, [a, b, c]) == ParseLine(r, ParseLine(r, ParseLine(r, st, a), b), c)
  {
    var s1 := ParseLine(r, st, a);
    var s2 := ParseLine(r, s1, b);
    FeedRun(r, [st, s1, s2, ParseLine(r, s2, c)], [a, b, c]);
  }

  /** The last of several entries may span lines. */
  lemma FeedLast<Sec, Doc>(r: Reader<Sec, Doc>, st: Reading<Sec, Doc>, entry: string)
    ensures Feed(r, st, [entry]) == Fold(r, st, Split(entry, '\n'))
  {
    assert [entry][1..] == [];
  }

  lemma FeedFiveMore<Sec, Doc>(r: Reader<Sec, Doc>, st: Reading<Sec, Doc>, x: seq<string>, a: seq<string>, b: seq<string>, c: seq<string>,
                        d: seq<string>, e: seq<string>)
    ensures Feed(r, st, x + a + b + c + d + e)
         == Feed(r, Feed(r, Feed(r, Feed(r, Feed(r, Feed(r, st, x), a), b), c), d), e)
  {
    FeedAppended(r, st, x + a + b + c + d, e);
    FeedAppended(r, st, x + a + b + c, d);
    FeedAppended(r, st, x + a + b, c);
    FeedAppended(r, st, x + a, b);
    FeedAppended(r, st, x, a);
  }

  lemma FeedOne<Sec, Doc>(r: Reader<Sec, Doc>, st: Reading<Sec, Doc>, line: string)
    requires '\n' !in line
    ensures Feed(r, st, [line]) == ParseLine(r, st, line)
  {
    assert [line] + [] == [line];
    FeedLine(r, st, line, []);
  }

  // ----- Every document leaves a sound state -----

  /** Free text that survives: none, or proper lines. */
  predicate PlainText(text: string) {
    text == "" || GoodProse(Split(text, '\n'))
  }

  predicate Sound<Sec, Doc>(fields: Doc -> bool, st: Reading<Sec, Doc>) {
    fields(st.doc) && GoodProse(st.prose)
  }

  /** If every line keeps the document's fields well formed, so does every document. */
  lemma {:induction false} LinesStaySound<Sec(!new), Doc(!new)>(r: Reader<Sec, Doc>, fields: Doc -> bool, st: Reading<Sec, Doc>,
                                                                lines: seq<string>)
    requires forall st', line | Sound(fields, st') && OneLine(line) :: Sound(fields, r.read(st', line))
    requires Sound(fields, st) && forall line | line in lines :: '\n' !in line
    ensures Sound(fields, Fold(r, st, lines))
    decreases |lines|
  {
    if lines != [] {
      assert OneLine(Trim(lines[0]));
      LinesStaySound(r, fields, ParseLine(r, st, lines[0]), lines[1..]);
    }
  }

  lemma ProseIsPlain(lines: seq<string>)
    requires GoodProse(lines)
    ensures PlainText(Join(lines, '\n'))
  {
    if lines != [] {
      SplitJoin(lines, '\n');
    }
  }

  // ----- Titles -----

  /** A title that names a section. */
  predicate Titles<Sec(==), Doc>(r: Reader<Sec, Doc>, title: string, section: Sec) {
    Trimmed(title) && title != "" && '\n' !in title && r.sectionNamed(ToLowerCase(title)) == section
  }

  lemma TitleLine<Sec, Doc>(r: Reader<Sec, Doc>, st: Reading<Sec, Doc>, title: string, section: Sec)
    requires Titles(r, title, section)
    ensures ParseLine(r, st, "## " + title) == st.(section := section)
  {
    var line := "## " + title;
    assert line[..3] == "## ";
    assert line[3..] == title;
    assert Trim(line) == line;
  }

  lemma BlankLine<Sec, Doc>(r: Reader<Sec, Doc>, st: Reading<Sec, Doc>)
    ensures ParseLine(r, st, "") == r.read(st, "")
  {
  }

  lemma SectionOpened<Sec, Doc>(r: Reader<Sec, Doc>, st: Reading<Sec, Doc>, title: string, section: Sec)
    requires Titles(r, title, section)
    requires r.read(st, "") == st && r.read(st.(section := section), "") == st.(section := section)
    ensures Feed(r, st, SectionOpening(title)) == st.(section := section)
  {
    TitleLine(r, st, title, section);
    FeedThree(r, st, "", "## " + title, "");
  }

  /** A report's heading and the title of its metadata. */
  function Opening(heading: string): seq<string> {
    ["# " + heading, "", "## Metadata", ""]
  }

  lemma HeadingLine<Sec, Doc>(r: Reader<Sec, Doc>, st: Reading<Sec, Doc>, heading: string)
    requires OneLine(heading) && heading != ""
    ensures ParseLine(r, st, "# " + heading) == r.read(st, "# " + heading)
  {
    var line := "# " + heading;
    assert line[1] == ' ' && line[|line| - 1] == heading[|heading| - 1];
    TrimSolid(line);
  }

  lemma OpeningRead<Sec, Doc>(r: Reader<Sec, Doc>, st: Reading<Sec, Doc>, heading: string, section: Sec)
    requires OneLine(heading) && heading != "" && r.sectionNamed("metadata") == section
    requires r.read(st, "# " + heading) == st && r.read(st, "") == st
    requires r.read(st.(section := section), "") == st.(section := section)
    ensures Feed(r, st, Opening(heading)) == st.(section := section)
  {
    HeadingLine(r, st, heading);
    BlankLine(r, st);
    assert ToLowerCase("Metadata") == "metadata" && "## Metadata" == "## " + "Metadata";
    TitleLine(r, st, "Metadata", section);
    BlankLine(r, st.(section := section));
    FeedFour(r, st, "# " + heading, "", "## Metadata", "");
  }

  // ----- Free text -----

  function WithProse<Sec, Doc>(st: Reading<Sec, Doc>, lines: seq<string>): Reading<Sec, Doc> {
    st.(prose := st.prose + lines)
  }

  lemma ProseAndMore<Sec, Doc>(st: Reading<Sec, Doc>, a: seq<string>, b: seq<string>)
    ensures WithProse(st, []) == st
    ensures WithProse(WithProse(st, a), b) == WithProse(st, a + b)
  {
    assert st.prose + [] == st.prose;
    assert st.prose + a + b == st.prose + (a + b);
  }

  /** In a section of free text, proper lines are kept as they are. */
  ghost predicate KeepsProse<Sec(!new), Doc(!new)>(r: Reader<Sec, Doc>, section: Sec) {
    forall st: Reading<Sec, Doc>, line | st.section == section && OneLine(line) && IsProse(line) :: r.read(st, line) == WithProse(st, [line])
  }

  lemma ProseLine<Sec(!new), Doc(!new)>(r: Reader<Sec, Doc>, st: Reading<Sec, Doc>, line: string)
    requires KeepsProse(r, st.section) && OneLine(line) && IsProse(line)
    ensures ParseLine(r, st, line) == WithProse(st, [line])
  {
    HashTitle(line);
  }

  lemma {:induction false} ProseFold<Sec(!new), Doc(!new)>(r: Reader<Sec, Doc>, st: Reading<Sec, Doc>, lines: seq<string>)
    requires KeepsProse(r, st.section) && GoodProse(lines)
    ensures Fold(r, st, lines) == WithProse(st, lines)
    decreases |lines|
  {
    if lines == [] {
      ProseAndMore(st, [], []);
    } else {
      ProseLine(r, st, lines[0]);
      ProseFold(r, WithProse(st, [lines[0]]), lines[1..]);
      ProseAndMore(st, [lines[0]], lines[1..]);
      assert lines == [lines[0]] + lines[1..];
    }
  }

  function ProseLines(text: string): seq<string> {
    if text == "" then [] else Split(text, '\n')
  }

  lemma ProseRead<Sec(!new), Doc(!new)>(r: Reader<Sec, Doc>, st: Reading<Sec, Doc>, title: string, section: Sec, text: string)
    requires Titles(r, title, section) && KeepsProse(r, section) && PlainText(text) && st.prose == []
    requires r.read(st, "") == st && r.read(st.(section := section), "") == st.(section := section)
    ensures Feed(r, st, SectionOpening(title) + [text]) == st.(section := section, prose := ProseLines(text))
  {
    var st' := st.(section := section);
    SectionOpened(r, st, title, section);
    FeedAppended(r, st, SectionOpening(title), [text]);
    FeedLast(r, st', text);
    BlankLine(r, st');
    if text != "" {
      ProseFold(r, st', Split(text, '\n'));
    }
  }

  // ----- The whole document -----

  /** A printed document ends in an empty entry, which adds nothing. */
  lemma DocumentRead<Sec, Doc>(r: Reader<Sec, Doc>, st: Reading<Sec, Doc>, entries: seq<string>, end: Reading<Sec, Doc>)
    requires Feed(r, st, entries) == end && r.read(end, "") == end
    ensures Fold(r, st, Split(Join(entries + [""], '\n'), '\n')) == end
  {
    FeedAppended(r, st, entries, [""]);
    FeedOne(r, end, "");
    FeedIsFold(r, st, entries + [""]);
  }
}
