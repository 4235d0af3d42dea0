/** Context assembly: a task card, then the manifest's layers, within a character budget. */
module Assembler {
  import opened Wrappers
  import opened Text

  const NOTICE := "\n\n" + "[Content truncated due to character budget]\n"
  const NOTICE_LENGTH: int := 46
  const MEANINGFUL: int := 100

  datatype Card = Card(path: string, taskId: string, title: string, frontmatter: string, body: string)

  datatype Layer = Seed | Optional | Deep

  datatype Manifest = Manifest(seed: seq<string>, optional: seq<string>, deep: seq<string>)

  /** What the resolvers find: a reference that is missing here makes them throw. */
  type Files = map<string, string>

  datatype Request = Request(card: Card, manifest: Manifest, files: Files, includeDeep: bool)

  /** A section that could be included: the reference and its whole text. */
  datatype Piece = Piece(ref: string, text: string)

  /** `included` holds the pieces whose references are recorded in `sources`. */
  datatype Bundle = Bundle(summary: string, included: seq<Piece>)

  // ----- Sections -----

  function CardText(card: Card): (r: string)
    ensures r != "" && r[0] == '#'
  {
    var r := "# Task: " + card.title + "\n\n" + "## Metadata\n```yaml\n" + card.frontmatter + "```\n\n"
             + "## Description\n" + card.body + "\n\n";
    assert r[0] == "# Task: "[0];
    r
  }

  function Prefix(layer: Layer): string {
    match layer
    case Seed => "Input: "
    case Optional => "Optional: "
    case Deep => "Deep: "
  }

  function FileName(ref: string): string {
    var parts := Split(ref, '/');
    parts[|parts| - 1]
  }

  function Section(layer: Layer, ref: string, content: string): (r: string)
    ensures r != ""
  {
    "## " + (Prefix(layer) + FileName(ref)) + "\n\n" + content + "\n\n"
  }

  predicate EndsWith(s: string, suffix: string) {
    |suffix| <= |s| && s[|s| - |suffix|..] == suffix
  }

  /** The seed layer skips the task card, which is already in. */
  predicate Skipped(layer: Layer, card: Card, ref: string) {
    layer.Seed? && (ref == card.path || EndsWith(ref, card.taskId + ".md"))
  }

  /** The sections a layer offers, in order. */
  function Pieces(r: Request, layer: Layer, refs: seq<string>): (pieces: seq<Piece>)
    ensures forall p | p in pieces :: p.text != ""
  {
    if refs == [] then []
    else
      var rest := Pieces(r, layer, refs[1..]);
      if Skipped(layer, r.card, refs[0]) || refs[0] !in r.files then rest
      else [Piece(refs[0], Section(layer, refs[0], r.files[refs[0]]))] + rest
  }

  // What the sections are, told from the references.

  /** The part of a reference after its last slash. */
  ghost predicate IsFileName(ref: string, name: string) {
    '/' !in name && (ref == name || exists dir: string :: ref == dir + "/" + name)
  }

  lemma {:induction false} LastSegment(ref: string)
    ensures IsFileName(ref, FileName(ref))
  {
    if ref != "" {
      LastSegment(ref[1..]);
      var name := FileName(ref[1..]);
      var rest := Split(ref[1..], '/');
      if ref[0] == '/' {
        assert Split(ref, '/') == [""] + rest && FileName(ref) == name;
        if ref[1..] == name {
          assert ref == "" + "/" + name;
        } else {
          var dir: string :| ref[1..] == dir + "/" + name;
          assert ref == ("/" + dir) + "/" + name;
        }
      } else if |rest| > 1 {
        assert FileName(ref) == name;
        SlashInside(ref[1..]);
        var dir: string :| ref[1..] == dir + "/" + name;
        assert ref == ([ref[0]] + dir) + "/" + name;
      } else {
        SplitOne(ref[1..]);
        assert FileName(ref) == [ref[0]] + name && ref == [ref[0]] + ref[1..];
      }
    }
  }

  lemma SplitOne(s: string)
    requires |Split(s, '/')| == 1
    ensures Split(s, '/') == [s] && '/' !in s
  {
    JoinSplit(s, '/');
    assert Split(s, '/')[0] in Split(s, '/');
  }

  lemma SlashInside(s: string)
    requires |Split(s, '/')| > 1
    ensures '/' in s
  {
    if '/' !in s {
      SplitWhole(s, '/');
    }
  }

  /** A section's text: a title with the layer's label and the file name, and the resolved content. */
  ghost predicate IsSection(layer: Layer, ref: string, content: string, text: string) {
    exists name: string ::
      && IsFileName(ref, name)
      && match layer
         case Seed => text == "## Input: " + name + "\n\n" + content + "\n\n"
         case Optional => text == "## Optional: " + name + "\n\n" + content + "\n\n"
         case Deep => text == "## Deep: " + name + "\n\n" + content + "\n\n"
  }

  /** A reference to the task card: its path, or a path that ends in the task's id and ".md". */
  ghost predicate IsCard(card: Card, ref: string) {
    ref == card.path || exists dir: string :: ref == dir + card.taskId + ".md"
  }

  lemma CardIs(card: Card, ref: string)
    ensures Skipped(Seed, card, ref) <==> IsCard(card, ref)
  {
    var suffix := card.taskId + ".md";
    if EndsWith(ref, suffix) {
      assert ref == ref[..|ref| - |suffix|] + card.taskId + ".md";
    }
    if dir: string :| ref == dir + card.taskId + ".md" {
      assert ref[|ref| - |suffix|..] == suffix;
    }
  }

  lemma TitleIs(prefix: string, opening: string, name: string, content: string)
    requires opening == "## " + prefix
    ensures "## " + (prefix + name) + "\n\n" + content + "\n\n" == opening + name + "\n\n" + content + "\n\n"
  {
    assert "## " + (prefix + name) == opening + name;
  }

  lemma SectionIs(layer: Layer, ref: string, content: string)
    ensures IsSection(layer, ref, content, Section(layer, ref, content))
  {
    LastSegment(ref);
    match layer
    case Seed => TitleIs(Prefix(layer), "## Input: ", FileName(ref), content);
    case Optional => TitleIs(Prefix(layer), "## Optional: ", FileName(ref), content);
    case Deep => TitleIs(Prefix(layer), "## Deep: ", FileName(ref), content);
  }

  /** The reference belongs to a layer's sections: it resolves, and in the seed layer it is not the card. */
  ghost predicate Offered(r: Request, layer: Layer, ref: string) {
    ref in r.files && (layer == Seed ==> !IsCard(r.card, ref))
  }

  /** A layer offers, in order, the section of each of its references that resolves. */
  lemma {:induction false} PiecesLaw(r: Request, layer: Layer, refs: seq<string>)
    ensures forall p | p in Pieces(r, layer, refs) ::
              p.ref in refs && Offered(r, layer, p.ref) && IsSection(layer, p.ref, r.files[p.ref], p.text)
    ensures refs != [] ==>
              var rest := Pieces(r, layer, refs[1..]);
              if Offered(r, layer, refs[0]) then |Pieces(r, layer, refs)| == 1 + |rest| && Pieces(r, layer, refs)[0].ref == refs[0]
                                                 && Pieces(r, layer, refs)[1..] == rest
              else Pieces(r, layer, refs) == rest
    decreases |refs|
  {
    if refs != [] {
      PiecesLaw(r, layer, refs[1..]);
      CardIs(r.card, refs[0]);
      if Offered(r, layer, refs[0]) {
        SectionIs(layer, refs[0], r.files[refs[0]]);
      }
    }
  }

  /** The card: its title, its metadata as YAML and its description. */
  lemma CardLaw(card: Card)
    ensures CardText(card) == "# Task: " + card.title + "\n\n## Metadata\n```yaml\n" + card.frontmatter
                              + "```\n\n## Description\n" + card.body + "\n\n"
  {
    assert "\n\n" + "## Metadata\n```yaml\n" == "\n\n## Metadata\n```yaml\n";
    assert "```\n\n" + "## Description\n" == "```\n\n## Description\n";
  }

  // ----- The budget -----

  /** A budget of zero counts as none when sections are added. */
  predicate Limited(maxChars: Option<int>) {
    maxChars.Some? && maxChars.value != 0
  }

  /** `summary.length < (maxChars ?? Infinity)`: here zero is a budget. */
  predicate Room(maxChars: Option<int>, b: Bundle) {
    maxChars.None? || |b.summary| < maxChars.value
  }

  /** `s.substring(0, n)`. */
  function Substring(s: string, n: int): string {
    if n <= 0 then "" else if n >= |s| then s else s[..n]
  }

  predicate Fits(maxChars: Option<int>, b: Bundle, text: string) {
    Limited(maxChars) ==> |b.summary| + |text| <= maxChars.value
  }

  /** What is added of a section that does not fit. */
  function Cut(maxChars: int, used: nat, text: string): string {
    if maxChars - used > MEANINGFUL then Substring(text, maxChars - used) + NOTICE else ""
  }

  /** When more than a hundred characters remain, a section that does not fit fills them and is marked; otherwise nothing is added. */
  lemma CutLaw(m: int, used: nat, text: string)
    requires used + |text| > m
    ensures if m - used > 100 then Cut(m, used, text) == text[..m - used] + ("\n\n" + "[Content truncated due to character budget]\n")
            else Cut(m, used, text) == ""
  {
  }

  function AddPiece(maxChars: Option<int>, b: Bundle, p: Piece): Bundle {
    if Fits(maxChars, b, p.text) then Bundle(b.summary + p.text, b.included + [p])
    else b.(summary := b.summary + Cut(maxChars.value, |b.summary|, p.text))
  }

  /** A layer stops at its first section that does not fit. */
  function AddPieces(maxChars: Option<int>, b: Bundle, pieces: seq<Piece>): Bundle
    decreases |pieces|
  {
    if pieces == [] then b
    else if Fits(maxChars, b, pieces[0].text) then AddPieces(maxChars, AddPiece(maxChars, b, pieces[0]), pieces[1..])
    else AddPiece(maxChars, b, pieces[0])
  }

  function Start(r: Request): Bundle {
    Bundle(CardText(r.card), [])
  }

  function AfterSeed(r: Request, maxChars: Option<int>): Bundle {
    AddPieces(maxChars, Start(r), Pieces(r, Seed, r.manifest.seed))
  }

  function AfterOptional(r: Request, maxChars: Option<int>): Bundle {
    var b := AfterSeed(r, maxChars);
    if Room(maxChars, b) then AddPieces(maxChars, b, Pieces(r, Optional, r.manifest.optional)) else b
  }

  function AfterDeep(r: Request, maxChars: Option<int>): Bundle {
    var b := AfterOptional(r, maxChars);
    if r.includeDeep && Room(maxChars, b) then AddPieces(maxChars, b, Pieces(r, Deep, r.manifest.deep)) else b
  }

  function Truncate(maxChars: Option<int>, summary: string): string {
    if Limited(maxChars) && |summary| > maxChars.value then Substring(summary, maxChars.value - |NOTICE|) + NOTICE else summary
  }

  /** A text over its budget is cut to end in the notice at the budget, and becomes the notice alone when that does not fit. */
  lemma TruncateLaw(m: int, summary: string)
    requires m != 0 && |summary| > m
    ensures var notice := "\n\n" + "[Content truncated due to character budget]\n";
            Truncate(Some(m), summary) == if m > 46 then summary[..m - 46] + notice else notice
  {
    NoticeLength();
    assert "" + NOTICE == NOTICE;
  }

  function Assemble(r: Request, maxChars: Option<int>): Bundle {
    var b := AfterDeep(r, maxChars);
    b.(summary := Truncate(maxChars, b.summary))
  }

  // ----- What the summary looks like before the final truncation -----

  function Texts(pieces: seq<Piece>): string {
    if pieces == [] then "" else Texts(pieces[..|pieces| - 1]) + pieces[|pieces| - 1].text
  }

  /** The card and the recorded sections. */
  function Recorded(card: string, b: Bundle): string {
    card + Texts(b.included)
  }

  /** Within the budget and whole; or over it by the notice, with the recorded sections ending well before the cut. */
  predicate Shaped(m: int, card: string, b: Bundle) {
    var whole := Recorded(card, b);
    || (b.summary == whole && |whole| <= m)
    || (whole <= b.summary && |b.summary| == m + |NOTICE| && |whole| < m - 100)
  }

  lemma NoticeLength()
    ensures |NOTICE| == NOTICE_LENGTH && NOTICE[0] == '\n'
  {
  }

  lemma RecordedGrows(card: string, b: Bundle, p: Piece)
    ensures Recorded(card, Bundle(b.summary + p.text, b.included + [p])) == Recorded(card, b) + p.text
  {
    assert (b.included + [p])[..|b.included|] == b.included;
    assert card + (Texts(b.included) + p.text) == card + Texts(b.included) + p.text;
  }

  lemma AddPieceKeepsShape(m: int, card: string, b: Bundle, p: Piece)
    requires m != 0 && b.summary == Recorded(card, b) && |b.summary| <= m
    ensures var b' := AddPiece(Some(m), b, p);
            Shaped(m, card, b') && (Fits(Some(m), b, p.text) ==> b'.summary == Recorded(card, b') && |b'.summary| <= m)
  {
    RecordedGrows(card, b, p);
  }

  lemma {:induction false} AddPiecesKeepsShape(m: int, card: string, b: Bundle, pieces: seq<Piece>)
    requires m != 0 && b.summary == Recorded(card, b) && |b.summary| <= m
    ensures Shaped(m, card, AddPieces(Some(m), b, pieces))
    decreases |pieces|
  {
    if pieces != [] {
      AddPieceKeepsShape(m, card, b, pieces[0]);
      if Fits(Some(m), b, pieces[0].text) {
        AddPiecesKeepsShape(m, card, AddPiece(Some(m), b, pieces[0]), pieces[1..]);
      }
    }
  }

  /** A card over the budget lets no section in. */
  lemma NothingAfterLargeCard(r: Request, m: int)
    requires m != 0 && |CardText(r.card)| > m
    ensures AfterDeep(r, Some(m)) == Start(r)
  {
    var card := CardText(r.card);
    assert card + "" == card;
  }

  lemma SmallCardKeepsShape(r: Request, m: int)
    requires m != 0 && |CardText(r.card)| <= m
    ensures Shaped(m, CardText(r.card), AfterDeep(r, Some(m)))
  {
    var card := CardText(r.card);
    assert card + Texts([]) == card;
    AddPiecesKeepsShape(m, card, Start(r), Pieces(r, Seed, r.manifest.seed));
    var b1 := AfterSeed(r, Some(m));
    NoticeLength();
    if Room(Some(m), b1) {
      AddPiecesKeepsShape(m, card, b1, Pieces(r, Optional, r.manifest.optional));
    }
    var b2 := AfterOptional(r, Some(m));
    if r.includeDeep && Room(Some(m), b2) {
      AddPiecesKeepsShape(m, card, b2, Pieces(r, Deep, r.manifest.deep));
    }
  }

  // ----- Main results -----

  /** The headings of a card alone are longer than the notice. */
  lemma CardOutweighsNotice(card: Card)
    ensures |CardText(card)| > NOTICE_LENGTH
  {
  }

  /** The result keeps a budget exactly when the notice fits in it. */
  lemma BudgetKeptIff(r: Request, m: int)
    requires m != 0
    ensures |Assemble(r, Some(m)).summary| <= m <==> m >= NOTICE_LENGTH
  {
    NoticeLength();
    if m < NOTICE_LENGTH {
      CardOutweighsNotice(r.card);
      NothingAfterLargeCard(r, m);
    }
  }

  lemma CutAfterPrefix(s: string, whole: string, n: int)
    requires whole <= s && |whole| <= n
    ensures whole <= Substring(s, n) + NOTICE
  {
  }

  lemma CardIsNotInNotice(card: string, n: int)
    requires card != "" && card[0] == '#' && |card| > n
    ensures !(card <= Substring(card, n - |NOTICE|) + NOTICE)
  {
    NoticeLength();
  }

  /** The card and every recorded section stand whole at the start of the result exactly when the card fits the budget. */
  lemma RecordedSurviveIff(r: Request, m: int)
    requires m != 0
    ensures var b := Assemble(r, Some(m));
            Recorded(CardText(r.card), b) <= b.summary <==> |CardText(r.card)| <= m
  {
    var card := CardText(r.card);
    var raw := AfterDeep(r, Some(m));
    NoticeLength();
    if |card| > m {
      NothingAfterLargeCard(r, m);
      assert card + Texts([]) == card;
      CardIsNotInNotice(card, m);
    } else {
      SmallCardKeepsShape(r, m);
      if |raw.summary| > m {
        CutAfterPrefix(raw.summary, Recorded(card, raw), m - |NOTICE|);
      }
    }
  }

  /** Without a budget nothing is cut: the summary is the card and every section that resolves, layer by layer. */
  lemma {:induction false} UnlimitedAddsAll(b: Bundle, pieces: seq<Piece>)
    ensures AddPieces(None, b, pieces).included == b.included + pieces
    decreases |pieces|
  {
    if pieces == [] {
      assert b.included + pieces == b.included;
    } else {
      UnlimitedAddsAll(AddPiece(None, b, pieces[0]), pieces[1..]);
      assert b.included + [pieces[0]] + pieces[1..] == b.included + pieces;
    }
  }

  lemma UnlimitedIncludesAll(r: Request)
    ensures Assemble(r, None).included
         == Pieces(r, Seed, r.manifest.seed) + Pieces(r, Optional, r.manifest.optional)
            + (if r.includeDeep then Pieces(r, Deep, r.manifest.deep) else [])
  {
    UnlimitedAddsAll(Start(r), Pieces(r, Seed, r.manifest.seed));
    UnlimitedAddsAll(AfterSeed(r, None), Pieces(r, Optional, r.manifest.optional));
    UnlimitedAddsAll(AfterOptional(r, None), Pieces(r, Deep, r.manifest.deep));
  }

  /** The summary without a budget is the card followed by the texts of all recorded sections. */
  lemma UnlimitedIsWhole(r: Request)
    ensures Assemble(r, None).summary == Recorded(CardText(r.card), Assemble(r, None))
  {
    var card := CardText(r.card);
    assert card + Texts([]) == card;
    UnlimitedStaysWhole(card, Start(r), Pieces(r, Seed, r.manifest.seed));
    UnlimitedStaysWhole(card, AfterSeed(r, None), Pieces(r, Optional, r.manifest.optional));
    UnlimitedStaysWhole(card, AfterOptional(r, None), Pieces(r, Deep, r.manifest.deep));
  }

  lemma {:induction false} UnlimitedStaysWhole(card: string, b: Bundle, pieces: seq<Piece>)
    requires b.summary == Recorded(card, b)
    ensures var b' := AddPieces(None, b, pieces); b'.summary == Recorded(card, b')
    decreases |pieces|
  {
    if pieces != [] {
      RecordedGrows(card, b, pieces[0]);
      UnlimitedStaysWhole(card, AddPiece(None, b, pieces[0]), pieces[1..]);
    }
  }

  lemma {:induction false} UnlimitedGrows(b: Bundle, pieces: seq<Piece>)
    requires forall p | p in pieces :: p.text != ""
    ensures |AddPieces(None, b, pieces).summary| >= |b.summary| + |pieces|
    ensures pieces != [] ==> b.summary <= AddPieces(None, b, pieces).summary
    decreases |pieces|
  {
    if pieces != [] {
      assert pieces[0] in pieces;
      UnlimitedGrows(AddPiece(None, b, pieces[0]), pieces[1..]);
    }
  }

  /** While everything fits, the budget is not felt. */
  lemma {:induction false} BudgetNotFelt(m: int, b: Bundle, pieces: seq<Piece>)
    requires m != 0 && forall p | p in pieces :: p.text != ""
    requires |AddPieces(None, b, pieces).summary| <= m
    ensures AddPieces(Some(m), b, pieces) == AddPieces(None, b, pieces)
    decreases |pieces|
  {
    if pieces != [] {
      UnlimitedGrows(AddPiece(None, b, pieces[0]), pieces[1..]);
      BudgetNotFelt(m, AddPiece(None, b, pieces[0]), pieces[1..]);
    }
  }

  /** A budget changes nothing exactly when the whole context fits in it. */
  lemma BudgetHarmlessIff(r: Request, m: int)
    requires m != 0
    ensures Assemble(r, Some(m)) == Assemble(r, None) <==> |Assemble(r, None).summary| <= m
  {
    var u1, u2, u3 := AfterSeed(r, None), AfterOptional(r, None), AfterDeep(r, None);
    var p1, p2, p3 := Pieces(r, Seed, r.manifest.seed), Pieces(r, Optional, r.manifest.optional), Pieces(r, Deep, r.manifest.deep);
    UnlimitedGrows(Start(r), p1);
    UnlimitedGrows(u1, p2);
    UnlimitedGrows(u2, p3);
    if |u3.summary| <= m {
      BudgetNotFelt(m, Start(r), p1);
      BudgetNotFelt(m, u1, p2);
      if r.includeDeep {
        BudgetNotFelt(m, u2, p3);
      }
    } else {
      BudgetKeptIff(r, m);
      NoticeLength();
      if m < NOTICE_LENGTH {
        CardOutweighsNotice(r.card);
        NothingAfterLargeCard(r, m);
        assert Assemble(r, Some(m)).summary == "" + NOTICE;
        UnlimitedStart(r);
      }
    }
  }

  lemma UnlimitedStart(r: Request)
    ensures var s := Assemble(r, None).summary; s != "" && s[0] == '#'
  {
    UnlimitedGrows(Start(r), Pieces(r, Seed, r.manifest.seed));
    UnlimitedGrows(AfterSeed(r, None), Pieces(r, Optional, r.manifest.optional));
    UnlimitedGrows(AfterOptional(r, None), Pieces(r, Deep, r.manifest.deep));
  }

  /** A budget of zero is no limit for the seed layer and leaves the other layers out. */
  lemma ZeroBudgetIsSeedOnly(r: Request)
    ensures Assemble(r, Some(0)) == AfterSeed(r, None)
    ensures Assemble(r, Some(0)).included == Pieces(r, Seed, r.manifest.seed)
  {
    ZeroIsUnlimited(Start(r), Pieces(r, Seed, r.manifest.seed));
    UnlimitedAddsAll(Start(r), Pieces(r, Seed, r.manifest.seed));
  }

  lemma {:induction false} ZeroIsUnlimited(b: Bundle, pieces: seq<Piece>)
    ensures AddPieces(Some(0), b, pieces) == AddPieces(None, b, pieces)
    decreases |pieces|
  {
    if pieces != [] {
      ZeroIsUnlimited(AddPiece(None, b, pieces[0]), pieces[1..]);
    }
  }

  // ----- The source's loops -----

  function Refs(pieces: seq<Piece>): seq<string> {
    seq(|pieces|, i requires 0 <= i < |pieces| => pieces[i].ref)
  }

  function Sources(card: Card, b: Bundle): seq<string> {
    [card.path] + Refs(b.included)
  }

  lemma SourcesGrow(card: Card, b: Bundle, p: Piece)
    ensures Sources(card, b.(included := b.included + [p])) == Sources(card, b) + [p.ref]
  {
  }

  /** Adds a section, or part of it; false when the budget is exhausted. */
  method AddContent(maxChars: Option<int>, summary: string, sources: seq<string>, text: string, ref: string)
    returns (summary': string, sources': seq<string>, proceed: bool)
    ensures forall b: Bundle | b.summary == summary ::
              summary' == AddPiece(maxChars, b, Piece(ref, text)).summary && (proceed <==> Fits(maxChars, b, text))
    ensures sources' == if proceed then sources + [ref] else sources
  {
    summary', sources' := summary, sources;
    if Limited(maxChars) {
      var projectedLength := |summary| + |text|;
      if projectedLength > maxChars.value {
        var remaining := maxChars.value - |summary|;
        if remaining > MEANINGFUL {
          summary' := summary' + (Substring(text, remaining) + NOTICE);
        } else {
          assert summary + "" == summary;
        }
        return summary', sources', false;
      }
    }
    return summary' + text, sources' + [ref], true;
  }

  method AddLayer(r: Request, maxChars: Option<int>, layer: Layer, refs: seq<string>, summary: string, sources: seq<string>, ghost b: Bundle)
    returns (summary': string, sources': seq<string>)
    requires summary == b.summary && sources == Sources(r.card, b)
    ensures var b' := AddPieces(maxChars, b, Pieces(r, layer, refs)); summary' == b'.summary && sources' == Sources(r.card, b')
  {
    summary', sources' := summary, sources;
    ghost var now := b;
    for i := 0 to |refs|
      invariant summary' == now.summary && sources' == Sources(r.card, now)
      invariant AddPieces(maxChars, b, Pieces(r, layer, refs)) == AddPieces(maxChars, now, Pieces(r, layer, refs[i..]))
    {
      assert refs[i..][0] == refs[i] && refs[i..][1..] == refs[i + 1..];
      if Skipped(layer, r.card, refs[i]) || refs[i] !in r.files {
        continue;
      }
      var text := Section(layer, refs[i], r.files[refs[i]]);
      ghost var piece := Piece(refs[i], text);
      assert Pieces(r, layer, refs[i..]) == [piece] + Pieces(r, layer, refs[i + 1..]);
      SourcesGrow(r.card, now, piece);
      var proceed;
      summary', sources', proceed := AddContent(maxChars, summary', sources', text, refs[i]);
      now := AddPiece(maxChars, now, piece);
      if !proceed {
        return;
      }
    }
  }

  /** The three layers, before the final truncation. */
  method AddLayers(r: Request, maxChars: Option<int>) returns (summary: string, sources: seq<string>)
    ensures summary == AfterDeep(r, maxChars).summary && sources == Sources(r.card, AfterDeep(r, maxChars))
  {
    summary, sources := CardText(r.card), [r.card.path];
    assert sources == Sources(r.card, Start(r));
    summary, sources := AddLayer(r, maxChars, Seed, r.manifest.seed, summary, sources, Start(r));
    ghost var seeded := AfterSeed(r, maxChars);
    if maxChars.None? || |summary| < maxChars.value {
      summary, sources := AddLayer(r, maxChars, Optional, r.manifest.optional, summary, sources, seeded);
    }
    ghost var optional := AfterOptional(r, maxChars);
    if r.includeDeep && (maxChars.None? || |summary| < maxChars.value) {
      summary, sources := AddLayer(r, maxChars, Deep, r.manifest.deep, summary, sources, optional);
    }
  }

  method AssembleContext(r: Request, maxChars: Option<int>) returns (summary: string, sources: seq<string>)
    ensures summary == Assemble(r, maxChars).summary
    ensures sources == Sources(r.card, Assemble(r, maxChars))
    ensures var included := Assemble(r, maxChars).included;
            |sources| == 1 + |included| && sources[0] == r.card.path && forall i | 0 <= i < |included| :: sources[i + 1] == included[i].ref
  {
    summary, sources := AddLayers(r, maxChars);
    if Limited(maxChars) && |summary| > maxChars.value {
      var availableChars := maxChars.value - |NOTICE|;
      summary := Substring(summary, availableChars) + NOTICE;
    }
  }
}
