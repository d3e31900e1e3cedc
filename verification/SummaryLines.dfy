/** The text render_structured_summary returns and the lines a reader of it sees
    (app/summary_output.py). */
module SummaryLines {
  import opened Text
  import opened SummaryOutput
  import opened SummaryRender

  // No line break of any kind, and no indentation.
  predicate IsFlush(line: string) {
    && (forall i :: 0 <= i < |line| && IsSpace(line[i]) ==> line[i] == ' ')
    && (line != [] ==> !IsSpace(line[0]))
  }

  lemma FlushThenPlain(front: string, back: string)
    requires front != [] && IsFlush(front) && IsFlush(back)
    ensures IsFlush(front + back)
  {
  }

  predicate AllFlush(lines: seq<string>) {
    forall i :: 0 <= i < |lines| ==> IsFlush(lines[i])
  }

  lemma BulletsAreFlush(items: seq<string>)
    requires forall i :: 0 <= i < |items| ==> IsInline(items[i])
    ensures AllFlush(Bullets(items))
  {
    forall i | 0 <= i < |items| ensures IsFlush(Bullets(items)[i]) {
      FlushThenPlain("- ", items[i]);
    }
  }

  lemma {:induction false} ShownIsInline(values: seq<string>)
    ensures forall i :: 0 <= i < |Shown(values)| ==> IsInline(Shown(values)[i]) && Shown(values)[i] != []
  {
    if values != [] {
      ShownIsInline(values[1..]);
      InlineNormalizes(values[0]);
    }
  }

  lemma FieldIsFlush(name: string, value: string)
    requires IsFlush(name)
    ensures AllFlush(Field(name, value))
  {
    InlineNormalizes(value);
    FlushThenPlain("- ", name);
    assert IsFlush("- " + name + ": ");
    FlushThenPlain("- " + name + ": ", Inline(value));
  }

  lemma LabelIsFlush(i: nat)
    requires i < |HEADER_LABELS|
    ensures IsFlush(HEADER_LABELS[i])
  {
  }

  lemma {:induction false} HeaderIsFlush(values: seq<string>, n: nat)
    requires n <= |HEADER_LABELS|
    ensures AllFlush(HeaderLines(values, n))
  {
    if n != 0 {
      HeaderIsFlush(values, n - 1);
      LabelIsFlush(n - 1);
      FieldIsFlush(HEADER_LABELS[n - 1], if n <= |values| then values[n - 1] else "");
    }
  }

  lemma FlushTogether(a: seq<string>, b: seq<string>, c: seq<string>, d: seq<string>, e: seq<string>)
    requires AllFlush(a) && AllFlush(b) && AllFlush(c) && AllFlush(d) && AllFlush(e)
    ensures AllFlush(a + b + c + d + e)
  {
  }

  lemma TagIsFlush()
    ensures IsFlush("<" + HEADER_TAG + " " + HEADER_CLASS + ">") && IsFlush("</" + HEADER_TAG + ">")
  {
    assert IsFlush(HEADER_TAG) && IsFlush(HEADER_CLASS) && IsFlush(">");
    FlushThenPlain("<", HEADER_TAG);
    assert IsFlush("<" + HEADER_TAG + " ");
    FlushThenPlain("<" + HEADER_TAG + " ", HEADER_CLASS);
    FlushThenPlain("<" + HEADER_TAG + " " + HEADER_CLASS, ">");
    FlushThenPlain("</", HEADER_TAG);
    FlushThenPlain("</" + HEADER_TAG, ">");
  }

  lemma CodeIsFlush(ctx: Context)
    ensures IsFlush("- Processo: " + Inline(ctx.code))
  {
    InlineNormalizes(ctx.code);
    FlushThenPlain("- Processo: ", Inline(ctx.code));
  }

  lemma OpeningIsFlush(ctx: Context)
    ensures AllFlush(Opening(ctx))
  {
    TagIsFlush();
    CodeIsFlush(ctx);
    var lines := Opening(ctx);
    assert IsFlush(lines[0]) && IsFlush(lines[1]) && IsFlush(lines[2]);
  }

  lemma ClosingIsFlush(p: Summary)
    requires IsNormal(p)
    ensures AllFlush(Closing(p))
  {
    TagIsFlush();
    var lines := Closing(p);
    assert IsFlush(lines[0]) && IsFlush(lines[1]) && IsFlush(lines[2]);
  }

  lemma PreambleIsFlush(p: Summary, ctx: Context)
    requires IsNormal(p)
    ensures AllFlush(Preamble(p, ctx))
  {
    OpeningIsFlush(ctx);
    ClosingIsFlush(p);
    HeaderIsFlush(ctx.header, |HEADER_LABELS|);
    FieldIsFlush("Classe", ctx.className);
    FieldIsFlush("Tribunal", ctx.court);
    FlushTogether(Opening(ctx), Field("Classe", ctx.className), Field("Tribunal", ctx.court),
                  HeaderLines(ctx.header, |HEADER_LABELS|), Closing(p));
  }

  lemma OrElseIsFlush(items: seq<string>, otherwise: string)
    requires forall i :: 0 <= i < |items| ==> IsInline(items[i])
    requires IsFlush(otherwise)
    ensures AllFlush(OrElse(Bullets(items), otherwise))
  {
    BulletsAreFlush(items);
  }

  lemma NothingIsFlush()
    ensures IsFlush(NOTHING_SELECTED)
  {
    FlushThenPlain("Nenhuma movimentação ", "relevante selecionada.");
  }

  lemma TimelineIsFlush(p: Summary)
    requires IsNormal(p)
    ensures AllFlush(TimelineLines(p))
  {
    NothingIsFlush();
    OrElseIsFlush(p.timeline, NOTHING_SELECTED);
    FlushThenPlain("Estado atual: ", p.status);
  }

  lemma NamesAreFlush(values: seq<string>)
    ensures AllFlush(OrElse(Bullets(Shown(values)), NOT_INFORMED))
  {
    ShownIsInline(values);
    BulletsAreFlush(Shown(values));
  }

  lemma ClassIsFlush(ctx: Context)
    ensures IsFlush(ClassLine(ctx)) && IsTrimmed(ClassLine(ctx)) && ClassLine(ctx) != []
  {
    InlineNormalizes(ctx.className);
  }

  lemma CoreBodyIsFlush(p: Summary, ctx: Context, i: nat)
    requires IsNormal(p) && i <= |CORE_SECTION_ORDER|
    ensures AllFlush(CoreBody(p, ctx, i))
  {
    PreambleIsFlush(p, ctx);
    TimelineIsFlush(p);
    NamesAreFlush(ctx.parties);
    NamesAreFlush(ctx.subjects);
    ClassIsFlush(ctx);
    BulletsAreFlush(p.attention);
  }

  // A heading line of the document.
  predicate IsHeadingLine(line: string) {
    IsMarked(line) && IsTrimmed(line) && IsFlush(line) && TitleOf(line) != []
  }

  lemma HeadingLineOf(title: string)
    requires title != [] && IsTrimmed(title) && IsFlush(title)
    ensures IsHeadingLine("# " + title) && IsHeadingLine("## " + title)
  {
    HeadingMarks(title);
    FlushThenPlain("# ", title);
    FlushThenPlain("## ", title);
  }

  lemma CoreHeadingLine(p: Summary, ctx: Context, i: nat)
    requires i <= |CORE_SECTION_ORDER|
    ensures IsHeadingLine(CoreBlock(p, ctx, i).heading)
  {
    if i == 0 {
      assert IsFlush(TITLE);
      HeadingLineOf(TITLE);
    } else {
      CoreTitles(i - 1);
      CoreTitleIsFlush(i - 1);
      HeadingLineOf(CORE_SECTION_ORDER[i - 1]);
    }
  }

  lemma CoreTitleIsFlush(i: nat)
    requires i < |CORE_SECTION_ORDER|
    ensures IsFlush(CORE_SECTION_ORDER[i])
  {
  }

  predicate FlushBlock(b: Block) {
    AllFlush(b.lead) && IsHeadingLine(b.heading) && AllFlush(b.body)
  }

  // The last line ends with something to read.
  predicate EndsWell(lines: seq<string>) {
    lines != [] && var last := lines[|lines| - 1]; last != [] && !IsSpace(last[|last| - 1])
  }

  lemma BulletsEndWell(items: seq<string>)
    requires items != [] && forall i :: 0 <= i < |items| ==> IsInline(items[i]) && items[i] != []
    ensures EndsWell(Bullets(items))
  {
    var last := items[|items| - 1];
    assert Bullets(items)[|items| - 1] == "- " + last;
  }

  predicate AllItems(items: seq<string>) {
    forall i :: 0 <= i < |items| ==> IsInline(items[i]) && items[i] != []
  }

  lemma {:induction false} SectionsAreFlush(fields: seq<(string, seq<string>)>)
    requires forall f :: f in fields ==> f.0 != [] && IsTrimmed(f.0) && IsFlush(f.0) && AllItems(f.1)
    ensures forall b :: b in SectionBlocks(fields) ==> FlushBlock(b) && EndsWell(b.body)
  {
    if fields != [] {
      var f := fields[0];
      assert f in fields;
      SectionsAreFlush(fields[1..]);
      HeadingLineOf(f.0);
      BulletsAreFlush(f.1);
      if f.1 != [] {
        BulletsEndWell(f.1);
      }
    }
  }

  lemma ConditionalTitleIsFlush(i: nat)
    requires i < |CONDITIONAL_SECTION_ORDER|
    ensures var title := CONDITIONAL_SECTION_ORDER[i]; title != [] && IsTrimmed(title) && IsFlush(title)
  {
  }

  lemma ConditionalsAreFlush(p: Summary)
    requires IsNormal(p)
    ensures forall b :: b in SectionBlocks(ConditionalFields(p)) ==> FlushBlock(b) && EndsWell(b.body)
  {
    var fields := ConditionalFields(p);
    forall f | f in fields ensures f.0 != [] && IsTrimmed(f.0) && IsFlush(f.0) && AllItems(f.1) {
      var i :| 0 <= i < |fields| && f == fields[i];
      ConditionalTitleIsFlush(i);
    }
    SectionsAreFlush(fields);
  }

  lemma CoreIsFlush(p: Summary, ctx: Context, i: nat)
    requires IsNormal(p) && i <= |CORE_SECTION_ORDER|
    ensures FlushBlock(CoreBlock(p, ctx, i))
  {
    CoreHeadingLine(p, ctx, i);
    CoreBodyIsFlush(p, ctx, i);
    if i != 0 {
      CoreShape(p, ctx, i);
    }
  }

  lemma BlocksAreFlush(p: Summary, ctx: Context)
    requires IsNormal(p)
    ensures forall b :: b in Blocks(p, ctx) ==> FlushBlock(b)
  {
    var core, sections := CoreBlocks(p, ctx), SectionBlocks(ConditionalFields(p));
    ConditionalsAreFlush(p);
    forall b | b in core ensures FlushBlock(b) {
      var i :| 0 <= i < |core| && core[i] == b;
      CoreIsFlush(p, ctx, i);
    }
  }

  lemma {:induction false} FlattenIsFlush(blocks: seq<Block>)
    requires forall b :: b in blocks ==> FlushBlock(b)
    ensures AllFlush(Flatten(blocks))
  {
    if blocks != [] {
      FlattenIsFlush(blocks[1..]);
      assert FlushBlock(blocks[0]);
    }
  }

  lemma {:induction false} FlattenEndsWell(blocks: seq<Block>)
    requires blocks != [] && EndsWell(blocks[|blocks| - 1].body)
    ensures EndsWell(Flatten(blocks))
  {
    if |blocks| > 1 {
      FlattenEndsWell(blocks[1..]);
    }
  }

  lemma AttentionEndsWell(p: Summary, ctx: Context, i: nat)
    requires IsNormal(p) && i == |CORE_SECTION_ORDER|
    ensures EndsWell(CoreBlock(p, ctx, i).body)
  {
    BulletsEndWell(p.attention);
  }

  lemma LinesEndWell(p: Summary, ctx: Context)
    requires IsNormal(p)
    ensures EndsWell(Lines(p, ctx))
  {
    var blocks, last := Blocks(p, ctx), |CORE_SECTION_ORDER|;
    var sections := SectionBlocks(ConditionalFields(p));
    if sections == [] {
      AttentionEndsWell(p, ctx, last);
      assert blocks[|blocks| - 1] == CoreBlock(p, ctx, last);
    } else {
      ConditionalsAreFlush(p);
      assert blocks[|blocks| - 1] == sections[|sections| - 1];
    }
    FlattenEndsWell(blocks);
  }

  lemma FirstLine(p: Summary, ctx: Context, i: nat)
    requires i == 0
    ensures Lines(p, ctx) != [] && Lines(p, ctx)[0] == "# " + TITLE
  {
    var blocks := Blocks(p, ctx);
    assert blocks[i] == CoreBlock(p, ctx, i);
    assert Flatten(blocks) == BlockLines(blocks[0]) + Flatten(blocks[1..]);
  }

  // Splitting the rendered text gives back the lines it was made of: no line holds a line break,
  // and nothing at either end is stripped.
  lemma SplitOfRender(p: Summary, ctx: Context)
    requires IsNormal(p)
    ensures Split(Render(p, ctx)) == Lines(p, ctx) && AllFlush(Lines(p, ctx))
    ensures Render(p, ctx) == Join(Lines(p, ctx))
  {
    var lines := Lines(p, ctx);
    BlocksAreFlush(p, ctx);
    FlattenIsFlush(Blocks(p, ctx));
    LinesEndWell(p, ctx);
    FirstLine(p, ctx, 0);
    RejoinedLines(lines);
  }

  lemma RejoinedLines(lines: seq<string>)
    requires lines != [] && lines[0] != [] && AllFlush(lines) && EndsWell(lines)
    ensures Strip(Join(lines)) == Join(lines) && Split(Join(lines)) == lines
  {
    JoinEnds(lines);
    StripOfTrimmed(Join(lines));
    forall i | 0 <= i < |lines| ensures NoNewline(lines[i]) {
      assert IsFlush(lines[i]);
    }
    SplitOfJoin(lines);
  }
}
