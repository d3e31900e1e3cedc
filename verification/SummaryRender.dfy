/** render_structured_summary in app/summary_output.py and the heading checks of app/validation.py
    that its documents have to pass. */
module SummaryRender {
  import opened Wrappers
  import opened Text
  import opened SummaryOutput

  // The part of the context the document shows; values are rendered with _inline.
  datatype Context = Context(
    code: string, className: string, court: string, header: seq<string>,
    parties: seq<string>, subjects: seq<string>)

  const TITLE := "Resumo do processo"
  const CORE_SECTION_ORDER: seq<string> := ["Partes", "Classe", "Assuntos", "Movimentações", "Pontos de atenção"]
  const CONDITIONAL_SECTION_ORDER: seq<string> := ["Decisões", "Prazos em curso", "Processos relacionados", "Anexos"]
  const HEADER_LABELS: seq<string> := ["Instância", "Área", "Justiça", "Comarca", "Estado", "Cidade", "Valor"]

  const HEADER_TAG := "ProcessHeader"
  const HEADER_CLASS := "className=\"process-header\""

  const NOT_INFORMED := "Não informado."
  // In two parts: proofs unfold a literal character by character.
  const NOTHING_SELECTED := "Nenhuma movimentação " + "relevante selecionada."

  function Bullets(items: seq<string>): seq<string> {
    seq(|items|, i requires 0 <= i < |items| => "- " + items[i])
  }

  // The values that are not blank, rendered.
  function Shown(values: seq<string>): seq<string> {
    if values == [] then []
    else (if Inline(values[0]) == [] then [] else [Inline(values[0])]) + Shown(values[1..])
  }

  function OrElse(lines: seq<string>, otherwise: string): seq<string> {
    if lines == [] then [otherwise] else lines
  }

  function Field(name: string, value: string): seq<string> {
    if Inline(value) == [] then [] else ["- " + name + ": " + Inline(value)]
  }

  // The first n header fields; a missing one is blank.
  function HeaderLines(values: seq<string>, n: nat): seq<string>
    requires n <= |HEADER_LABELS|
  {
    if n == 0 then []
    else HeaderLines(values, n - 1) + Field(HEADER_LABELS[n - 1], if n <= |values| then values[n - 1] else "")
  }

  function ClassLine(ctx: Context): string {
    if Inline(ctx.className) == [] then NOT_INFORMED else Inline(ctx.className)
  }

  // What one call of lines.extend adds: blank lines, a heading and the lines below it.
  datatype Block = Block(lead: seq<string>, heading: string, body: seq<string>)

  function Flatten(blocks: seq<Block>): seq<string> {
    if blocks == [] then []
    else blocks[0].lead + [blocks[0].heading] + blocks[0].body + Flatten(blocks[1..])
  }

  function Opening(ctx: Context): seq<string> {
    ["", "<" + HEADER_TAG + " " + HEADER_CLASS + ">", "- Processo: " + Inline(ctx.code)]
  }

  function Closing(p: Summary): seq<string> {
    ["</" + HEADER_TAG + ">", "", p.synthesis]
  }

  function Preamble(p: Summary, ctx: Context): seq<string> {
    Opening(ctx) + Field("Classe", ctx.className) + Field("Tribunal", ctx.court)
    + HeaderLines(ctx.header, |HEADER_LABELS|) + Closing(p)
  }

  function TimelineLines(p: Summary): seq<string> {
    OrElse(Bullets(p.timeline), NOTHING_SELECTED) + ["", "Estado atual: " + p.status]
  }

  // The lines below the title and below each core section.
  function CoreBody(p: Summary, ctx: Context, i: nat): seq<string>
    requires i <= |CORE_SECTION_ORDER|
  {
    match i
    case 0 => Preamble(p, ctx)
    case 1 => OrElse(Bullets(Shown(ctx.parties)), NOT_INFORMED)
    case 2 => [ClassLine(ctx)]
    case 3 => OrElse(Bullets(Shown(ctx.subjects)), NOT_INFORMED)
    case 4 => TimelineLines(p)
    case _ => Bullets(p.attention)
  }

  function CoreBlock(p: Summary, ctx: Context, i: nat): Block
    requires i <= |CORE_SECTION_ORDER|
  {
    if i == 0 then Block([], "# " + TITLE, CoreBody(p, ctx, 0))
    else Block([""], "## " + CORE_SECTION_ORDER[i - 1], CoreBody(p, ctx, i))
  }

  function CoreBlocks(p: Summary, ctx: Context): seq<Block> {
    seq(|CORE_SECTION_ORDER| + 1, i requires 0 <= i <= |CORE_SECTION_ORDER| => CoreBlock(p, ctx, i))
  }

  // CONDITIONAL_SUMMARY_FIELDS with the items of the payload.
  function ConditionalFields(p: Summary): seq<(string, seq<string>)> {
    [(CONDITIONAL_SECTION_ORDER[0], p.decisions), (CONDITIONAL_SECTION_ORDER[1], p.deadlines),
     (CONDITIONAL_SECTION_ORDER[2], p.related), (CONDITIONAL_SECTION_ORDER[3], p.attachments)]
  }

  function SectionBlocks(fields: seq<(string, seq<string>)>): seq<Block> {
    if fields == [] then []
    else (if fields[0].1 == [] then [] else [Block([""], "## " + fields[0].0, Bullets(fields[0].1))]) + SectionBlocks(fields[1..])
  }

  function SectionTitles(fields: seq<(string, seq<string>)>): seq<string> {
    if fields == [] then []
    else (if fields[0].1 == [] then [] else [fields[0].0]) + SectionTitles(fields[1..])
  }

  function Blocks(p: Summary, ctx: Context): seq<Block> {
    CoreBlocks(p, ctx) + SectionBlocks(ConditionalFields(p))
  }

  function Lines(p: Summary, ctx: Context): seq<string> {
    Flatten(Blocks(p, ctx))
  }

  function Render(p: Summary, ctx: Context): string {
    Strip(Join(Lines(p, ctx)))
  }

  // The title, the five core sections in order and the non-empty conditional sections in order.
  function ExpectedHeadings(p: Summary): seq<string> {
    [TITLE] + CORE_SECTION_ORDER + SectionTitles(ConditionalFields(p))
  }

  /* ---- Headings ---- */

  function Hashmarks(line: string): nat {
    if line != [] && line[0] == '#' then 1 + Hashmarks(line[1..]) else 0
  }

  lemma {:induction false} HashmarksFit(line: string)
    ensures Hashmarks(line) <= |line|
  {
    if line != [] && line[0] == '#' {
      HashmarksFit(line[1..]);
    }
  }

  // ^#{1,6}\s+ can match here: one to six marks, then whitespace or the end of the line.
  predicate IsMarked(line: string) {
    var n := Hashmarks(line);
    HashmarksFit(line);
    1 <= n <= 6 && (n < |line| ==> IsSpace(line[n]))
  }

  function TitleOf(line: string): string {
    HashmarksFit(line);
    Strip(line[Hashmarks(line)..])
  }

  // The titles ^#{1,6}\s+(?P<title>.+?)\s*$ finds, in order.  Whitespace includes newlines, so a
  // line of marks only takes its title from the next line that is not blank.
  function Headings(lines: seq<string>): seq<string>
    decreases |lines|
  {
    if lines == [] then []
    else if !IsMarked(lines[0]) then Headings(lines[1..])
    else if TitleOf(lines[0]) != [] then [TitleOf(lines[0])] + Headings(lines[1..])
    else NextLineTitle(lines[1..])
  }

  function NextLineTitle(lines: seq<string>): seq<string>
    decreases |lines|
  {
    if lines == [] then []
    else if Strip(lines[0]) == [] then NextLineTitle(lines[1..])
    else [Strip(lines[0])] + Headings(lines[1..])
  }

  // A block of lines without a heading.
  predicate Quiet(lines: seq<string>) {
    forall i :: 0 <= i < |lines| ==> !IsMarked(lines[i])
  }

  lemma {:induction false} QuietHasNoHeadings(quiet: seq<string>, rest: seq<string>)
    requires Quiet(quiet)
    ensures Headings(quiet + rest) == Headings(rest)
  {
    if quiet == [] {
      assert quiet + rest == rest;
    } else {
      QuietHasNoHeadings(quiet[1..], rest);
      assert (quiet + rest)[1..] == quiet[1..] + rest;
    }
  }

  // A heading line followed by quiet lines.
  lemma HeadingThenQuiet(line: string, quiet: seq<string>, rest: seq<string>)
    requires IsMarked(line) && TitleOf(line) != [] && Quiet(quiet)
    ensures Headings([line] + quiet + rest) == [TitleOf(line)] + Headings(rest)
  {
    var all := [line] + quiet + rest;
    assert all[1..] == quiet + rest;
    QuietHasNoHeadings(quiet, rest);
  }

  lemma NotMarked(line: string)
    requires line == [] || line[0] != '#'
    ensures !IsMarked(line)
  {
  }

  lemma {:induction false} HeadingMarks(title: string)
    requires title != [] && IsTrimmed(title)
    ensures IsMarked("## " + title) && TitleOf("## " + title) == title
    ensures IsMarked("# " + title) && TitleOf("# " + title) == title
  {
    var one, two := "# " + title, "## " + title;
    assert one[1..] == " " + title && two[1..] == one;
    assert Hashmarks(" " + title) == 0 && Hashmarks(one) == 1 && Hashmarks(two) == 2;
    assert one[1..] == two[2..] == " " + title;
    assert (" " + title)[1..] == title;
    assert StripLeft(" " + title) == StripLeft(title) == title;
    StripOfTrimmed(title);
  }

  ghost predicate GoodBlock(b: Block) {
    Quiet(b.lead) && IsMarked(b.heading) && TitleOf(b.heading) != [] && Quiet(b.body)
  }

  function BlockTitles(blocks: seq<Block>): seq<string> {
    if blocks == [] then [] else [TitleOf(blocks[0].heading)] + BlockTitles(blocks[1..])
  }

  lemma HeadingsOfBlock(b: Block, rest: seq<string>)
    requires GoodBlock(b)
    ensures Headings(b.lead + [b.heading] + b.body + rest) == [TitleOf(b.heading)] + Headings(rest)
  {
    HeadingThenQuiet(b.heading, b.body, rest);
    QuietHasNoHeadings(b.lead, [b.heading] + b.body + rest);
    assert b.lead + [b.heading] + b.body + rest == b.lead + ([b.heading] + b.body + rest);
  }

  ghost predicate AllGood(blocks: seq<Block>) {
    blocks == [] || (GoodBlock(blocks[0]) && AllGood(blocks[1..]))
  }

  lemma {:induction false} AllGoodIf(blocks: seq<Block>)
    requires forall b :: b in blocks ==> GoodBlock(b)
    ensures AllGood(blocks)
  {
    if blocks != [] {
      AllGoodIf(blocks[1..]);
    }
  }

  lemma Reassociate<T>(a: seq<T>, b: seq<T>, c: seq<T>)
    ensures (a + b) + c == a + (b + c)
  {
  }

  // Blocks whose bodies hold no heading yield exactly their titles.
  lemma {:induction false} HeadingsOfBlocks(blocks: seq<Block>, rest: seq<string>)
    requires AllGood(blocks)
    ensures Headings(Flatten(blocks) + rest) == BlockTitles(blocks) + Headings(rest)
  {
    if blocks == [] {
      assert Flatten(blocks) + rest == rest;
    } else {
      var b, tail := blocks[0], blocks[1..];
      HeadingsOfBlocks(tail, rest);
      HeadingsOfBlock(b, Flatten(tail) + rest);
      Reassociate(b.lead + [b.heading] + b.body, Flatten(tail), rest);
      Reassociate([TitleOf(b.heading)], BlockTitles(tail), Headings(rest));
    }
  }

  /* ---- The blocks of a document are good ---- */

  lemma BulletsAreQuiet(items: seq<string>, otherwise: string)
    requires otherwise != [] && otherwise[0] != '#'
    ensures Quiet(Bullets(items)) && Quiet(OrElse(Bullets(items), otherwise))
  {
    var bullets := Bullets(items);
    forall i | 0 <= i < |bullets| ensures !IsMarked(bullets[i]) {
      assert bullets[i][0] == '-';
    }
  }

  lemma {:induction false} HeaderIsQuiet(values: seq<string>, n: nat)
    requires n <= |HEADER_LABELS|
    ensures Quiet(HeaderLines(values, n))
  {
    if n != 0 {
      HeaderIsQuiet(values, n - 1);
      FieldIsQuiet(HEADER_LABELS[n - 1], if n <= |values| then values[n - 1] else "");
    }
  }

  lemma FieldIsQuiet(name: string, value: string)
    ensures Quiet(Field(name, value))
  {
    var line := "- " + name + ": " + Inline(value);
    assert line[0] == '-';
  }

  lemma EndsAreQuiet(p: Summary, ctx: Context)
    requires IsNormal(p)
    ensures Quiet(Opening(ctx)) && Quiet(Closing(p))
  {
    assert Opening(ctx)[1][0] == '<' && Opening(ctx)[2][0] == '-' && Closing(p)[0][0] == '<';
    // A prose line never starts with a mark.
    NotMarked(p.synthesis);
  }

  lemma PreambleIsQuiet(p: Summary, ctx: Context)
    requires IsNormal(p)
    ensures Quiet(Preamble(p, ctx))
  {
    EndsAreQuiet(p, ctx);
    HeaderIsQuiet(ctx.header, |HEADER_LABELS|);
    FieldIsQuiet("Classe", ctx.className);
    FieldIsQuiet("Tribunal", ctx.court);
  }

  lemma TimelineIsQuiet(p: Summary)
    ensures Quiet(TimelineLines(p))
  {
    BulletsAreQuiet(p.timeline, NOTHING_SELECTED);
    var status := "Estado atual: " + p.status;
    assert status[0] == 'E';
  }

  lemma CoreTitles(i: nat)
    requires i < |CORE_SECTION_ORDER|
    ensures CORE_SECTION_ORDER[i] != [] && IsTrimmed(CORE_SECTION_ORDER[i])
  {
  }

  lemma CoreBodyIsQuiet(p: Summary, ctx: Context, i: nat)
    requires IsNormal(p) && i <= |CORE_SECTION_ORDER|
    requires i != 2 || !IsMarked(ClassLine(ctx))
    ensures Quiet(CoreBody(p, ctx, i))
  {
    PreambleIsQuiet(p, ctx);
    TimelineIsQuiet(p);
    BulletsAreQuiet(Shown(ctx.parties), NOT_INFORMED);
    BulletsAreQuiet(Shown(ctx.subjects), NOT_INFORMED);
    BulletsAreQuiet(p.attention, "-");
  }

  lemma CoreHeading(p: Summary, ctx: Context, i: nat)
    requires i <= |CORE_SECTION_ORDER|
    ensures IsMarked(CoreBlock(p, ctx, i).heading) && Quiet(CoreBlock(p, ctx, i).lead)
    ensures TitleOf(CoreBlock(p, ctx, i).heading) == if i == 0 then TITLE else CORE_SECTION_ORDER[i - 1]
    ensures TitleOf(CoreBlock(p, ctx, i).heading) != []
  {
    if i == 0 {
      HeadingMarks(TITLE);
    } else {
      CoreTitles(i - 1);
      HeadingMarks(CORE_SECTION_ORDER[i - 1]);
    }
  }

  lemma {:induction false} TitlesOfBlocks(blocks: seq<Block>)
    ensures |BlockTitles(blocks)| == |blocks|
    ensures forall i :: 0 <= i < |blocks| ==> BlockTitles(blocks)[i] == TitleOf(blocks[i].heading)
  {
    if blocks != [] {
      TitlesOfBlocks(blocks[1..]);
      assert forall i :: 1 <= i < |blocks| ==> blocks[i] == blocks[1..][i - 1];
    }
  }

  lemma {:induction false} SectionBlocksAreGood(fields: seq<(string, seq<string>)>)
    requires forall f :: f in fields ==> f.0 != [] && IsTrimmed(f.0)
    ensures forall b :: b in SectionBlocks(fields) ==> GoodBlock(b)
    ensures BlockTitles(SectionBlocks(fields)) == SectionTitles(fields)
  {
    if fields != [] {
      SectionBlocksAreGood(fields[1..]);
      if fields[0].1 != [] {
        HeadingMarks(fields[0].0);
        BulletsAreQuiet(fields[0].1, "-");
        var b := Block([""], "## " + fields[0].0, Bullets(fields[0].1));
        assert GoodBlock(b);
        assert SectionBlocks(fields)[1..] == SectionBlocks(fields[1..]);
      } else {
        assert SectionBlocks(fields) == SectionBlocks(fields[1..]);
      }
    }
  }

  /* ---- The headings of a document ---- */

  lemma {:induction false} TitlesTogether(a: seq<Block>, b: seq<Block>)
    ensures BlockTitles(a + b) == BlockTitles(a) + BlockTitles(b)
  {
    if a == [] {
      assert a + b == b;
    } else {
      TitlesTogether(a[1..], b);
      assert (a + b)[1..] == a[1..] + b;
    }
  }

  lemma {:induction false} FlattenTogether(a: seq<Block>, b: seq<Block>)
    ensures Flatten(a + b) == Flatten(a) + Flatten(b)
  {
    if a == [] {
      assert a + b == b;
    } else {
      FlattenTogether(a[1..], b);
      assert (a + b)[1..] == a[1..] + b && (a + b)[0] == a[0];
      var first := a[0].lead + [a[0].heading] + a[0].body;
      assert Flatten(a + b) == first + (Flatten(a[1..]) + Flatten(b));
    }
  }

  function BlockLines(b: Block): seq<string> {
    b.lead + [b.heading] + b.body
  }

  lemma FlattenCons(b: Block, tail: seq<Block>)
    ensures Flatten([b] + tail) == BlockLines(b) + Flatten(tail)
  {
    assert ([b] + tail)[0] == b && ([b] + tail)[1..] == tail;
  }

  lemma FlattenAt(front: seq<Block>, b: Block, tail: seq<Block>)
    ensures Flatten(front + [b] + tail) == Flatten(front) + (BlockLines(b) + Flatten(tail))
  {
    FlattenTogether(front, [b] + tail);
    FlattenCons(b, tail);
    assert front + [b] + tail == front + ([b] + tail);
  }

  lemma TitlesAt(front: seq<Block>, b: Block, tail: seq<Block>)
    ensures BlockTitles(front + [b] + tail) == BlockTitles(front) + ([TitleOf(b.heading)] + BlockTitles(tail))
  {
    TitlesTogether(front, [b] + tail);
    assert ([b] + tail)[0] == b && ([b] + tail)[1..] == tail;
    assert front + [b] + tail == front + ([b] + tail);
  }

  lemma TitleIsShorter(heading: string)
    requires IsMarked(heading)
    ensures TitleOf(heading) != heading
  {
    HashmarksFit(heading);
    StripTrims(heading[Hashmarks(heading)..]);
  }

  // A marked line gives a title of its own or, when nothing follows the marks, swallows the heading
  // of the next block.
  lemma MarkedLine(c: string, next: Block, rest: seq<string>)
    requires IsMarked(c) && next.lead == [""] && IsMarked(next.heading) && IsTrimmed(next.heading)
    ensures var after := next.lead + [next.heading] + next.body + rest;
      var found := Headings([c] + after);
      if TitleOf(c) != [] then |found| == 1 + |Headings(after)| else found != [] && found[0] == next.heading
  {
    var after := next.lead + [next.heading] + next.body + rest;
    assert ([c] + after)[1..] == after;
    if TitleOf(c) == [] {
      StripOfTrimmed(next.heading);
      assert after[0] == "" && after[1..][0] == next.heading;
      assert NextLineTitle(after) == NextLineTitle(after[1..]);
    }
  }

  // The headings found from a heading with the marked line c below it on, against the titles.
  lemma MarkedTail(b: Block, c: string, next: Block, rest: seq<Block>)
    requires GoodBlock(b) && b.body == [] && AllGood([next] + rest)
    requires IsMarked(c) && next.lead == [""] && IsTrimmed(next.heading)
    ensures Headings(BlockLines(b) + ([c] + Flatten([next] + rest))) != [TitleOf(b.heading)] + BlockTitles([next] + rest)
  {
    var tail := [next] + rest;
    HeadingsOfBlock(b, [c] + Flatten(tail));
    FlattenCons(next, rest);
    assert tail[0] == next;
    HeadingsOfBlocks(tail, []);
    assert Flatten(tail) + [] == Flatten(tail);
    MarkedLine(c, next, Flatten(rest));
    TitleIsShorter(next.heading);
    MarkedTitles([TitleOf(b.heading)], Headings([c] + Flatten(tail)), BlockTitles(tail));
  }

  lemma MarkedTitles<T>(front: seq<T>, found: seq<T>, expected: seq<T>)
    requires found != expected
    ensures front + found != front + expected
  {
    assert (front + found)[|front|..] == found;
    assert (front + expected)[|front|..] == expected;
  }

  lemma BodyMoves(b: Block, c: string, rest: seq<string>)
    requires b.body == [c]
    ensures BlockLines(b) + rest == BlockLines(b.(body := [])) + ([c] + rest)
  {
  }

  // Good blocks with a marked line as the body of block b do not yield their titles.
  lemma MarkedBody(front: seq<Block>, b: Block, next: Block, rest: seq<Block>)
    requires |b.body| == 1 && IsMarked(b.body[0]) && GoodBlock(b.(body := []))
    requires AllGood(front) && AllGood([next] + rest) && next.lead == [""] && IsTrimmed(next.heading)
    ensures var blocks := front + [b] + ([next] + rest); Headings(Flatten(blocks)) != BlockTitles(blocks)
  {
    var c, tail := b.body[0], [next] + rest;
    var bare := b.(body := []);
    FlattenAt(front, b, tail);
    TitlesAt(front, b, tail);
    var lines := BlockLines(bare) + ([c] + Flatten(tail));
    BodyMoves(b, c, Flatten(tail));
    HeadingsOfBlocks(front, lines);
    MarkedTail(bare, c, next, rest);
    MarkedTitles(BlockTitles(front), Headings(lines), [TitleOf(b.heading)] + BlockTitles(tail));
  }

  lemma CoreIsGood(p: Summary, ctx: Context, i: nat)
    requires IsNormal(p) && i <= |CORE_SECTION_ORDER|
    requires i != 2 || !IsMarked(ClassLine(ctx))
    ensures GoodBlock(CoreBlock(p, ctx, i))
  {
    CoreHeading(p, ctx, i);
    CoreBodyIsQuiet(p, ctx, i);
  }

  lemma TitlesOfDocument(p: Summary, ctx: Context)
    ensures BlockTitles(Blocks(p, ctx)) == ExpectedHeadings(p)
  {
    TitlesTogether(CoreBlocks(p, ctx), SectionBlocks(ConditionalFields(p)));
    CoreTitlesAre(p, ctx);
    ConditionalsAreGood(p);
  }

  lemma CoreTitlesAre(p: Summary, ctx: Context)
    ensures BlockTitles(CoreBlocks(p, ctx)) == [TITLE] + CORE_SECTION_ORDER
  {
    var core, titles := CoreBlocks(p, ctx), [TITLE] + CORE_SECTION_ORDER;
    TitlesOfBlocks(core);
    forall i | 0 <= i < |core| ensures BlockTitles(core)[i] == titles[i] {
      CoreHeading(p, ctx, i);
    }
  }

  lemma ConditionalsAreGood(p: Summary)
    ensures forall b :: b in SectionBlocks(ConditionalFields(p)) ==> GoodBlock(b)
    ensures BlockTitles(SectionBlocks(ConditionalFields(p))) == SectionTitles(ConditionalFields(p))
  {
    SectionBlocksAreGood(ConditionalFields(p));
  }

  lemma ClassBlock(p: Summary, ctx: Context, i: nat)
    requires i == 2
    ensures CoreBlock(p, ctx, i).body == [ClassLine(ctx)] && GoodBlock(CoreBlock(p, ctx, i).(body := []))
  {
    CoreHeading(p, ctx, i);
  }

  lemma CoreShape(p: Summary, ctx: Context, i: nat)
    requires 1 <= i <= |CORE_SECTION_ORDER|
    ensures CoreBlock(p, ctx, i).lead == [""] && IsTrimmed(CoreBlock(p, ctx, i).heading)
  {
    CoreTitles(i - 1);
  }

  // Blocks that are all good but block k, the body of which is one marked line.
  lemma MarkedBlocks(blocks: seq<Block>, k: nat)
    requires k + 1 < |blocks|
    requires forall i :: 0 <= i < |blocks| && i != k ==> GoodBlock(blocks[i])
    requires GoodBlock(blocks[k].(body := [])) && |blocks[k].body| == 1 && IsMarked(blocks[k].body[0])
    requires blocks[k + 1].lead == [""] && IsTrimmed(blocks[k + 1].heading)
    ensures Headings(Flatten(blocks)) != BlockTitles(blocks)
  {
    GoodAround(blocks, k);
    SplitAround(blocks, k);
    MarkedBody(blocks[..k], blocks[k], blocks[k + 1], blocks[k + 2..]);
  }

  lemma SplitAround<T>(s: seq<T>, k: nat)
    requires k + 1 < |s|
    ensures s == s[..k] + [s[k]] + ([s[k + 1]] + s[k + 2..])
  {
  }

  lemma GoodAround(blocks: seq<Block>, k: nat)
    requires k + 1 < |blocks| && forall i :: 0 <= i < |blocks| && i != k ==> GoodBlock(blocks[i])
    ensures AllGood(blocks[..k]) && AllGood([blocks[k + 1]] + blocks[k + 2..])
  {
    GoodSlice(blocks, 0, k);
    GoodSlice(blocks, k + 1, |blocks|);
    assert blocks[..k] == blocks[0..k] && [blocks[k + 1]] + blocks[k + 2..] == blocks[k + 1..|blocks|];
  }

  lemma {:induction false} GoodSlice(blocks: seq<Block>, from: nat, to: nat)
    requires from <= to <= |blocks| && forall i :: from <= i < to ==> GoodBlock(blocks[i])
    ensures AllGood(blocks[from..to])
    decreases |blocks| - from
  {
    if from < to {
      GoodSlice(blocks, from + 1, to);
      assert blocks[from..to][1..] == blocks[from + 1..to];
    }
  }

  lemma BlockOf(p: Summary, ctx: Context, i: nat)
    requires IsNormal(p) && i < |Blocks(p, ctx)|
    ensures i <= |CORE_SECTION_ORDER| ==> Blocks(p, ctx)[i] == CoreBlock(p, ctx, i)
    ensures i != 2 || !IsMarked(ClassLine(ctx)) ==> GoodBlock(Blocks(p, ctx)[i])
  {
    var core, sections := CoreBlocks(p, ctx), SectionBlocks(ConditionalFields(p));
    if i < |core| {
      if i != 2 || !IsMarked(ClassLine(ctx)) {
        CoreIsGood(p, ctx, i);
      }
    } else {
      ConditionalsAreGood(p);
      assert Blocks(p, ctx)[i] == sections[i - |core|];
    }
  }

  lemma MarkedClass(p: Summary, ctx: Context, k: nat)
    requires IsNormal(p) && IsMarked(ClassLine(ctx)) && k == 2
    ensures Headings(Lines(p, ctx)) != ExpectedHeadings(p)
  {
    var blocks := Blocks(p, ctx);
    forall i | 0 <= i < |blocks| && i != k ensures GoodBlock(blocks[i]) {
      BlockOf(p, ctx, i);
    }
    BlockOf(p, ctx, k);
    BlockOf(p, ctx, k + 1);
    ClassBlock(p, ctx, k);
    CoreShape(p, ctx, k + 1);
    MarkedBlocks(blocks, k);
    TitlesOfDocument(p, ctx);
  }

  lemma QuietClass(p: Summary, ctx: Context)
    requires IsNormal(p) && !IsMarked(ClassLine(ctx))
    ensures Headings(Lines(p, ctx)) == ExpectedHeadings(p)
  {
    var blocks := Blocks(p, ctx);
    forall i | 0 <= i < |blocks| ensures GoodBlock(blocks[i]) {
      BlockOf(p, ctx, i);
    }
    AllGoodIf(blocks);
    HeadingsOfBlocks(blocks, []);
    assert Lines(p, ctx) + [] == Lines(p, ctx);
    TitlesOfDocument(p, ctx);
  }

  // Exactly the title, the core headings in order and the non-empty conditional headings in order
  // are found, exactly when the class name is not itself a heading.
  lemma DocumentHeadings(p: Summary, ctx: Context)
    requires IsNormal(p)
    ensures Headings(Lines(p, ctx)) == ExpectedHeadings(p) <==> !IsMarked(ClassLine(ctx))
  {
    if IsMarked(ClassLine(ctx)) {
      MarkedClass(p, ctx, 2);
    } else {
      QuietClass(p, ctx);
    }
  }

  // A class name that adds a heading, to whatever summary.
  lemma HashedClassAddsHeading(p: Summary, ctx: Context)
    requires IsNormal(p) && ctx.className == "# X"
    ensures Headings(Lines(p, ctx)) != ExpectedHeadings(p)
  {
    assert IsInline("# X");
    InlineNormalizes("# X");
    DocumentHeadings(p, ctx);
  }
}
