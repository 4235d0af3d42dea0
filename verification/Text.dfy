/** The string operations the Markdown reports use. */
module Text {

  // ----- White space -----

  /** What `String.prototype.trim` removes. */
  predicate IsSpace(c: char) {
    || c == ' ' || '\t' <= c <= '\r' || c == '\U{a0}' || c == '\U{1680}' || '\U{2000}' <= c <= '\U{200a}'
    || c == '\U{2028}' || c == '\U{2029}' || c == '\U{202f}' || c == '\U{205f}' || c == '\U{3000}' || c == '\U{feff}'
  }

  /** The control characters from tab to carriage return, the space, and the other spaces and line ends of Unicode. */
  lemma SpacesAre(c: char)
    ensures IsSpace(c) <==>
            c in "\t\n\U{b}\U{c}\r \U{a0}\U{1680}\U{2000}\U{2001}\U{2002}\U{2003}\U{2004}\U{2005}\U{2006}\U{2007}\U{2008}\U{2009}\U{200a}\U{2028}\U{2029}\U{202f}\U{205f}\U{3000}\U{feff}"
  {
  }

  predicate EndsSolid(s: string) {
    s != "" ==> !IsSpace(s[|s| - 1])
  }

  predicate Trimmed(s: string) {
    EndsSolid(s) && (s != "" ==> !IsSpace(s[0]))
  }

  function TrimStart(s: string): (r: string)
    ensures r != "" ==> !IsSpace(r[0])
    ensures forall c | c in r :: c in s
  {
    if s == "" || !IsSpace(s[0]) then s else TrimStart(s[1..])
  }

  function TrimEnd(s: string): (r: string)
    ensures EndsSolid(r)
    ensures r <= s
  {
    if s == "" || !IsSpace(s[|s| - 1]) then s else TrimEnd(s[..|s| - 1])
  }

  function Trim(s: string): (r: string)
    ensures Trimmed(r)
    ensures forall c | c in r :: c in s
  {
    TrimEnd(TrimStart(s))
  }

  lemma {:induction false} TrimStartKeeps(s: string)
    ensures forall c | c in s && !IsSpace(c) :: c in TrimStart(s)
  {
    if s != "" && IsSpace(s[0]) {
      TrimStartKeeps(s[1..]);
      assert s == [s[0]] + s[1..];
    }
  }

  lemma {:induction false} TrimEndKeeps(s: string)
    ensures forall c | c in s && !IsSpace(c) :: c in TrimEnd(s)
  {
    if s != "" && IsSpace(s[|s| - 1]) {
      TrimEndKeeps(s[..|s| - 1]);
      assert s == s[..|s| - 1] + [s[|s| - 1]];
    }
  }

  /** Trimming loses nothing but white space. */
  lemma TrimKeeps(s: string)
    ensures forall c | c in s && !IsSpace(c) :: c in Trim(s)
  {
    TrimStartKeeps(s);
    TrimEndKeeps(TrimStart(s));
  }

  ghost predicate AllSpace(s: string) {
    forall c | c in s :: IsSpace(c)
  }

  lemma {:induction false} TrimStartIs(s: string) returns (before: string)
    ensures AllSpace(before) && s == before + TrimStart(s)
  {
    if s == "" || !IsSpace(s[0]) {
      before := "";
    } else {
      var rest := TrimStartIs(s[1..]);
      before := [s[0]] + rest;
      Regroup([s[0]], rest, TrimStart(s[1..]));
    }
  }

  lemma {:induction false} TrimEndIs(s: string) returns (after: string)
    ensures AllSpace(after) && s == TrimEnd(s) + after
  {
    if s == "" || !IsSpace(s[|s| - 1]) {
      after := "";
    } else {
      var rest := TrimEndIs(s[..|s| - 1]);
      after := rest + [s[|s| - 1]];
      Regroup(TrimEnd(s[..|s| - 1]), rest, [s[|s| - 1]]);
    }
  }

  /** A string is its trimmed form between white space. */
  lemma TrimIs(s: string) returns (before: string, after: string)
    ensures AllSpace(before) && AllSpace(after) && s == before + Trim(s) + after
  {
    before := TrimStartIs(s);
    after := TrimEndIs(TrimStart(s));
    Regroup(before, Trim(s), after);
  }

  lemma Regroup(a: string, b: string, c: string)
    ensures a + (b + c) == a + b + c
  {
  }

  lemma TrimSolid(s: string)
    requires Trimmed(s)
    ensures Trim(s) == s
  {
  }

  lemma TrimLabelled(heading: string, value: string)
    requires Trimmed(heading) && heading != "" && Trimmed(value)
    ensures Trim(heading + " " + value) == if value == "" then heading else heading + " " + value
    ensures Trim(" " + value) == value
  {
    var line := heading + " " + value;
    assert line[0] == heading[0];
    assert (" " + value)[1..] == value;
    assert TrimStart(" " + value) == TrimStart(value) == value;
    if value == "" {
      assert line[..|line| - 1] == heading;
      assert TrimEnd(line) == TrimEnd(heading) == heading;
    } else {
      assert line[|line| - 1] == value[|value| - 1];
    }
  }

  predicate StartsWith(s: string, prefix: string) {
    prefix <= s
  }

  lemma HashTitle(s: string)
    ensures StartsWith(s, "## ") ==> StartsWith(s, "#")
  {
  }

  // ----- Lower case -----

  /** Exact on the letters of which ASCII words are made: besides A to Z, the Kelvin sign lowers to k. */
  function LowerChar(c: char): char {
    if 'A' <= c <= 'Z' then (c as int + 32) as char else if c == '\U{212a}' then 'k' else c
  }

  function ToLowerCase(s: string): string {
    seq(|s|, i requires 0 <= i < |s| => LowerChar(s[i]))
  }

  /** The capital letters become small ones, and the small letters stay. */
  lemma LettersAreLowered(i: nat)
    requires i < 26
    ensures LowerChar("ABCDEFGHIJKLMNOPQRSTUVWXYZ"[i]) == "abcdefghijklmnopqrstuvwxyz"[i]
    ensures LowerChar("abcdefghijklmnopqrstuvwxyz"[i]) == "abcdefghijklmnopqrstuvwxyz"[i]
    ensures LowerChar('\U{212a}') == 'k'
  {
  }

  // ----- Splitting and joining -----

  function Split(s: string, sep: char): (parts: seq<string>)
    ensures parts != []
    ensures forall p | p in parts :: sep !in p
  {
    if s == "" then [""]
    else
      var rest := Split(s[1..], sep);
      if s[0] == sep then [""] + rest else [[s[0]] + rest[0]] + rest[1..]
  }

  function Join(parts: seq<string>, sep: char): string {
    if parts == [] then "" else if |parts| == 1 then parts[0] else parts[0] + [sep] + Join(parts[1..], sep)
  }

  lemma {:induction false} SplitCharacters(s: string, sep: char, c: char)
    requires c !in s
    ensures forall p | p in Split(s, sep) :: c !in p
  {
    if s != "" {
      SplitCharacters(s[1..], sep, c);
    }
  }

  lemma {:induction false} JoinSplit(s: string, sep: char)
    ensures Join(Split(s, sep), sep) == s
  {
    if s != "" {
      JoinSplit(s[1..], sep);
      var rest := Split(s[1..], sep);
      if s[0] == sep {
        assert ([""] + rest)[1..] == rest;
        assert s == "" + [sep] + s[1..];
      } else {
        var parts := [[s[0]] + rest[0]] + rest[1..];
        assert parts[1..] == rest[1..];
        assert s == [s[0]] + s[1..];
      }
    }
  }

  lemma {:induction false} SplitWhole(s: string, sep: char)
    requires sep !in s
    ensures Split(s, sep) == [s]
  {
    if s != "" {
      SplitWhole(s[1..], sep);
      assert s == [s[0]] + s[1..];
    }
  }

  lemma {:induction false} SplitAt(a: string, sep: char, b: string)
    ensures Split(a + [sep] + b, sep) == Split(a, sep) + Split(b, sep)
  {
    var s := a + [sep] + b;
    if a == "" {
      assert s[1..] == b;
    } else {
      assert s[1..] == a[1..] + [sep] + b;
      SplitAt(a[1..], sep, b);
    }
  }

  lemma {:induction false} JoinedCharacters(parts: seq<string>, sep: char, c: char)
    requires c != sep && forall p | p in parts :: c !in p
    ensures c !in Join(parts, sep)
  {
    if |parts| > 1 {
      JoinedCharacters(parts[1..], sep, c);
    }
  }

  /** Splitting what was joined gives the parts back when none of them contains the separator. */
  lemma {:induction false} SplitJoin(parts: seq<string>, sep: char)
    requires parts != [] && forall p | p in parts :: sep !in p
    ensures Split(Join(parts, sep), sep) == parts
  {
    SplitWhole(parts[0], sep);
    if |parts| > 1 {
      SplitJoin(parts[1..], sep);
      SplitAt(parts[0], sep, Join(parts[1..], sep));
      assert parts == [parts[0]] + parts[1..];
    }
  }

  // ----- "label: value" lines -----

  /** `line.split(":")[1]?.trim() ?? ""`. */
  function FieldAfterColon(line: string): (r: string)
    ensures Trimmed(r) && ':' !in r
  {
    var parts := Split(line, ':');
    if |parts| > 1 then Trim(parts[1]) else ""
  }

  /** `line.split(":").slice(1).join(":").trim()`. */
  function RestAfterColon(line: string): string {
    Trim(Join(Split(line, ':')[1..], ':'))
  }

  lemma FieldCharacters(line: string, c: char)
    requires c !in line && c != ':'
    ensures c !in FieldAfterColon(line)
    ensures c !in RestAfterColon(line)
  {
    SplitCharacters(line, ':', c);
    JoinedCharacters(Split(line, ':')[1..], ':', c);
  }

  function Labelled(name: string, value: string): string {
    name + ":" + " " + value
  }

  lemma LabelledIs(name: string, opening: string, value: string)
    requires opening == name + ": "
    ensures Labelled(name, value) == opening + value
  {
    assert name + ":" + " " == opening;
  }

  lemma LabelledCharacters(name: string, value: string, c: char)
    requires c !in name && c !in value && c != ':' && c != ' '
    ensures c !in Labelled(name, value)
  {
  }

  /** The value written after a label is read back. */
  lemma ReadField(name: string, value: string)
    requires name != "" && Trimmed(name + ":") && ':' !in name && Trimmed(value)
    ensures var line := Trim(Labelled(name, value));
            && StartsWith(line, name + ":") && line != "" && line[0] == name[0]
            && RestAfterColon(line) == value
            && (':' !in value ==> FieldAfterColon(line) == value)
  {
    var heading := name + ":";
    TrimLabelled(heading, value);
    var line := Trim(heading + " " + value);
    var tail := if value == "" then "" else " " + value;
    assert line == name + [':'] + tail;
    SplitWhole(name, ':');
    SplitAt(name, ':', tail);
    assert Split(line, ':')[1..] == Split(tail, ':');
    JoinSplit(tail, ':');
    if ':' !in value {
      SplitWhole(tail, ':');
    }
  }

  /** A value is read up to its first colon. */
  lemma FieldStopsAtColon(name: string, value: string, rest: string)
    requires ':' !in name && ':' !in value
    ensures FieldAfterColon(name + [':'] + (value + [':'] + rest)) == Trim(value)
    ensures RestAfterColon(name + [':'] + rest) == Trim(rest)
  {
    SplitWhole(name, ':');
    SplitWhole(value, ':');
    SplitAt(name, ':', value + [':'] + rest);
    SplitAt(value, ':', rest);
    SplitAt(name, ':', rest);
    assert Split(name + [':'] + rest, ':')[1..] == Split(rest, ':');
    JoinSplit(rest, ':');
  }

  // ----- Bullet lists -----

  /** Each item on a line of its own, after a dash. */
  function BulletLines(items: seq<string>): seq<string> {
    if items == [] then [] else ["- " + items[0]] + BulletLines(items[1..])
  }

  /** A list item that a bullet line keeps: one line, not blank, no white space at the end. */
  predicate KeptItem(item: string) {
    item != "" && EndsSolid(item) && '\n' !in item
  }

  lemma BulletLine(item: string)
    requires KeptItem(item)
    ensures var line := "- " + item;
            Trim(line) == line && StartsWith(line, "- ") && line != "- " && line[2..] == item && !StartsWith(line, "## ")
  {
    var line := "- " + item;
    assert line[..2] == "- ";
    assert line[0] == '-' && line[|line| - 1] == item[|item| - 1];
    assert |line| > |"- "|;
  }

  /** What a trimmed bullet line keeps. */
  lemma BulletItem(line: string)
    requires Trimmed(line) && '\n' !in line && StartsWith(line, "- ") && line != "- "
    ensures KeptItem(line[2..])
  {
    assert |line| == 2 ==> line == "- ";
    assert line[2..][|line| - 3] == line[|line| - 1];
  }

  function Bullets(items: seq<string>): seq<string> {
    if items == [] then ["None"] else BulletLines(items)
  }

  function SectionOpening(title: string): seq<string> {
    ["", "## " + title, ""]
  }

  lemma OpeningIs(title: string, line: string)
    requires line == "## " + title
    ensures SectionOpening(title) == ["", line, ""]
  {
  }

  /** A list item, other than the word printed for an empty list. */
  predicate GoodItem(item: string) {
    KeptItem(item) && item != "None"
  }

  predicate GoodItems(items: seq<string>) {
    forall item | item in items :: GoodItem(item)
  }

  method PushBullets(before: seq<string>, items: seq<string>) returns (lines: seq<string>)
    ensures lines == before + Bullets(items)
  {
    lines := before;
    if |items| == 0 {
      lines := lines + ["None"];
    } else {
      for i := 0 to |items|
        invariant lines + BulletLines(items[i..]) == before + BulletLines(items)
      {
        assert items[i..][1..] == items[i + 1..];
        assert lines + BulletLines(items[i..]) == (lines + ["- " + items[i]]) + BulletLines(items[i + 1..]);
        lines := lines + ["- " + items[i]];
      }
      assert lines + [] == lines;
    }
  }

  // ----- Free text -----

  predicate OneLine(s: string) {
    Trimmed(s) && '\n' !in s
  }

  predicate IsProse(line: string) {
    line != "" && !StartsWith(line, "#")
  }

  predicate GoodProse(lines: seq<string>) {
    forall line | line in lines :: OneLine(line) && IsProse(line)
  }

  lemma NotTitle(line: string)
    requires line == "" || line[0] != '#'
    ensures !StartsWith(line, "## ")
  {
  }
}
