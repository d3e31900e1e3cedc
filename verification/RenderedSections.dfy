/** What a reader of a rendered summary finds under each heading (render_structured_summary in
    app/summary_output.py). */
module RenderedSections {
  import opened Wrappers
  import opened Text
  import opened SummaryOutput
  import opened SummaryRender
  import opened SummaryLines
  import opened HeadingChecks
  import opened RenderedHeadings

  // The heading stands on exactly one line, and the body is what comes between it and the next
  // heading or the end, but for a blank line.
  ghost predicate Stands(lines: seq<string>, heading: string, body: seq<string>) {
    exists i: nat, j: nat :: StandsAt(lines, heading, body, i, j)
  }

  predicate StandsAt(lines: seq<string>, heading: string, body: seq<string>, i: nat, j: nat) {
    && i < j <= |lines| && lines[i] == heading
    && (forall k :: 0 <= k < |lines| && k != i ==> lines[k] != heading)
    && (forall k :: i < k < j ==> !IsMarked(lines[k])) && (j < |lines| ==> IsMarked(lines[j]))
    && (lines[i + 1..j] == body || lines[i + 1..j] == body + [""])
  }

  predicate IsAbsent(lines: seq<string>, heading: string) {
    forall k :: 0 <= k < |lines| ==> lines[k] != heading
  }

  /* ---- Blocks with different titles ---- */

  function Is(title: string): string -> bool {
    t => t == title
  }

  lemma UnaskedIsAbsent(lines: seq<string>, heading: string)
    requires IsMarked(heading) && TitleOf(heading) != [] && Unasked(lines, Is(TitleOf(heading)))
    ensures IsAbsent(lines, heading)
  {
    assert IsAttention(heading, Is(TitleOf(heading)));
  }

  lemma AbsentTogether(a: seq<string>, b: seq<string>, heading: string)
    ensures IsAbsent(a + b, heading) <==> IsAbsent(a, heading) && IsAbsent(b, heading)
  {
    if IsAbsent(a + b, heading) {
      assert forall k :: 0 <= k < |a| ==> (a + b)[k] == a[k];
      assert forall k :: 0 <= k < |b| ==> (a + b)[|a| + k] == b[k];
    }
  }

  // Some lines, a heading, quiet lines and then the next heading or the end.
  lemma StandsBetween(before: seq<string>, heading: string, body: seq<string>, gap: seq<string>, rest: seq<string>)
    requires IsMarked(heading) && Quiet(body) && (gap == [] || gap == [""]) && (rest != [] ==> IsMarked(rest[0]))
    requires IsAbsent(before, heading) && IsAbsent(rest, heading)
    ensures Stands(before + [heading] + (body + gap) + rest, heading, body)
  {
    var lines := before + [heading] + (body + gap) + rest;
    var i, j := |before|, |before| + 1 + |body + gap|;
    assert lines[i] == heading && lines[i + 1..j] == body + gap && (rest != [] ==> lines[j] == rest[0]);
    assert gap == [] ==> body + gap == body;
    forall k | i < k < j ensures !IsMarked(lines[k]) {
      assert lines[k] == (body + gap)[k - i - 1];
    }
    forall k | 0 <= k < |lines| && k != i ensures lines[k] != heading {
      if k < i {
        assert lines[k] == before[k];
      } else if k >= j {
        assert lines[k] == rest[k - j];
      }
    }
    assert StandsAt(lines, heading, body, i, j);
  }

  ghost predicate DifferentTitles(blocks: seq<Block>) {
    forall i, j :: 0 <= i < j < |blocks| ==> TitleOf(blocks[i].heading) != TitleOf(blocks[j].heading)
  }

  ghost predicate IsReadable(blocks: seq<Block>) {
    (forall b :: b in blocks ==> GoodBlock(b) && (b.lead == [] || b.lead == [""])) && DifferentTitles(blocks)
  }

  // The blocks around one of them have other titles.
  lemma OthersDiffer(blocks: seq<Block>, k: nat, x: Block)
    requires IsReadable(blocks) && k < |blocks| && (x in blocks[..k] || x in blocks[k + 1..])
    ensures x in blocks && GoodBlock(x) && TitleOf(x.heading) != TitleOf(blocks[k].heading)
  {
    if x in blocks[..k] {
      var i :| 0 <= i < k && blocks[..k][i] == x;
      assert blocks[i] == x;
    } else {
      var i :| 0 <= i < |blocks[k + 1..]| && blocks[k + 1..][i] == x;
      assert blocks[k + 1 + i] == x;
    }
  }

  ghost predicate IsAlone(front: seq<Block>, b: Block, tail: seq<Block>) {
    && GoodBlock(b) && (b.lead == [] || b.lead == [""]) && (tail != [] ==> tail[0].lead == [] || tail[0].lead == [""])
    && (forall x :: x in front ==> GoodBlock(x) && TitleOf(x.heading) != TitleOf(b.heading))
    && forall x :: x in tail ==> GoodBlock(x) && TitleOf(x.heading) != TitleOf(b.heading)
  }

  lemma AloneAround(front: seq<Block>, b: Block, tail: seq<Block>)
    requires IsAlone(front, b, tail)
    ensures Stands(Flatten(front + [b] + tail), b.heading, b.body)
  {
    var asks := Is(TitleOf(b.heading));
    NoAttentionBefore(front, b.lead, asks);
    UnaskedIsAbsent(Flatten(front) + b.lead, b.heading);
    NoAttention(tail, asks);
    UnaskedIsAbsent(Flatten(tail), b.heading);
    var rest := if tail == [] then [] else [tail[0].heading] + tail[0].body + Flatten(tail[1..]);
    AfterTheGap(tail);
    AbsentTogether(Gap(tail), rest, b.heading);
    assert tail != [] ==> tail[0] in tail;
    StandsBetween(Flatten(front) + b.lead, b.heading, b.body, Gap(tail), rest);
    FlattenAt(front, b, tail);
    Regroup(Flatten(front), b.lead, [b.heading], b.body, Gap(tail), rest);
  }

  // Every block stands in the document they make.
  lemma BlockStands(blocks: seq<Block>, k: nat)
    requires IsReadable(blocks) && k < |blocks|
    ensures Stands(Flatten(blocks), blocks[k].heading, blocks[k].body)
  {
    StandsAlone(blocks, k);
    AloneAround(blocks[..k], blocks[k], blocks[k + 1..]);
    assert blocks == blocks[..k] + [blocks[k]] + blocks[k + 1..];
  }

  lemma StandsAlone(blocks: seq<Block>, k: nat)
    requires IsReadable(blocks) && k < |blocks|
    ensures IsAlone(blocks[..k], blocks[k], blocks[k + 1..])
  {
    forall x | x in blocks[..k] || x in blocks[k + 1..]
      ensures GoodBlock(x) && TitleOf(x.heading) != TitleOf(blocks[k].heading)
    {
      OthersDiffer(blocks, k, x);
    }
    assert blocks[k] in blocks;
    NextIsThere(blocks, k);
  }

  lemma NextIsThere(blocks: seq<Block>, k: nat)
    requires k < |blocks|
    ensures blocks[k + 1..] != [] ==> k + 1 < |blocks| && blocks[k + 1..][0] == blocks[k + 1] && blocks[k + 1] in blocks
  {
  }

  lemma TitleIsAbsent(blocks: seq<Block>, heading: string)
    requires IsReadable(blocks) && IsMarked(heading) && TitleOf(heading) != []
    requires forall b :: b in blocks ==> TitleOf(b.heading) != TitleOf(heading)
    ensures IsAbsent(Flatten(blocks), heading)
  {
    NoAttention(blocks, Is(TitleOf(heading)));
    UnaskedIsAbsent(Flatten(blocks), heading);
  }

  /* ---- The blocks of a summary ---- */

  // The ten allowed headings differ.
  lemma AllowedDiffer()
    ensures forall i, j :: 0 <= i < j < |ALLOWED_HEADINGS| ==> ALLOWED_HEADINGS[i] != ALLOWED_HEADINGS[j]
  {
    var all := ALLOWED_HEADINGS;
    assert |all| == 10;
    assert |all[0]| == 18 && |all[1]| == 6 && |all[2]| == 6 && |all[3]| == 8 && |all[4]| == 13;
    assert |all[5]| == 17 && |all[6]| == 8 && |all[7]| == 15 && |all[8]| == 22 && |all[9]| == 6;
    assert all[1][0] == 'P' && all[2][0] == 'C' && all[9][0] == 'A' && all[3][0] == 'A' && all[6][0] == 'D';
  }

  lemma ExpectedDiffer(p: Summary)
    ensures forall i, j :: 0 <= i < j < |ExpectedHeadings(p)| ==> ExpectedHeadings(p)[i] != ExpectedHeadings(p)[j]
  {
    var at := ExpectedPicks(p);
    AllowedDiffer();
    forall i, j | 0 <= i < j < |at| ensures ExpectedHeadings(p)[i] != ExpectedHeadings(p)[j] {
      assert at[i] < at[j];
    }
  }

  lemma LeadsAreBlank(p: Summary, ctx: Context)
    ensures forall b :: b in Blocks(p, ctx) ==> b.lead == [] || b.lead == [""]
  {
    SectionLeads(ConditionalFields(p));
    var core := CoreBlocks(p, ctx);
    forall b | b in core ensures b.lead == [] || b.lead == [""] {
      var i :| 0 <= i < |core| && core[i] == b;
    }
  }

  lemma SummaryIsReadable(p: Summary, ctx: Context)
    requires IsNormal(p) && !IsMarked(ClassLine(ctx))
    ensures IsReadable(Blocks(p, ctx))
  {
    DocumentBlocks(p, ctx);
    LeadsAreBlank(p, ctx);
    TitlesOfDocument(p, ctx);
    ExpectedDiffer(p);
    var blocks := Blocks(p, ctx);
    TitlesOfBlocks(blocks);
    forall i, j | 0 <= i < j < |blocks| ensures TitleOf(blocks[i].heading) != TitleOf(blocks[j].heading) {
      assert BlockTitles(blocks)[i] != BlockTitles(blocks)[j];
    }
  }

  // A core section stands where it is meant to.
  lemma CoreStands(p: Summary, ctx: Context, i: nat)
    requires IsNormal(p) && !IsMarked(ClassLine(ctx)) && i <= |CORE_SECTION_ORDER|
    ensures Stands(Lines(p, ctx), CoreBlock(p, ctx, i).heading, CoreBody(p, ctx, i))
  {
    SummaryIsReadable(p, ctx);
    BlockOf(p, ctx, i);
    BlockStands(Blocks(p, ctx), i);
    assert CoreBlock(p, ctx, i).body == CoreBody(p, ctx, i);
  }

  lemma {:induction false} SectionIsThere(fields: seq<(string, seq<string>)>, f: nat)
    requires f < |fields| && fields[f].1 != []
    ensures Block([""], "## " + fields[f].0, Bullets(fields[f].1)) in SectionBlocks(fields)
  {
    if f != 0 {
      SectionIsThere(fields[1..], f - 1);
    }
  }

  lemma {:induction false} SectionTitled(fields: seq<(string, seq<string>)>, title: string)
    ensures title in SectionTitles(fields) ==> exists f :: 0 <= f < |fields| && fields[f].0 == title && fields[f].1 != []
  {
    if fields != [] && (fields[0].1 == [] || fields[0].0 != title) {
      SectionTitled(fields[1..], title);
      if title in SectionTitles(fields[1..]) {
        var f :| 0 <= f < |fields[1..]| && fields[1..][f].0 == title && fields[1..][f].1 != [];
        assert fields[f + 1] == fields[1..][f];
      }
    }
  }

  // A conditional section stands where it is meant to exactly when it has items.
  lemma SectionStands(p: Summary, ctx: Context, f: nat)
    requires IsNormal(p) && !IsMarked(ClassLine(ctx)) && f < |ConditionalFields(p)|
    ensures var heading := "## " + ConditionalFields(p)[f].0;
      if ConditionalFields(p)[f].1 == [] then IsAbsent(Lines(p, ctx), heading)
      else Stands(Lines(p, ctx), heading, Bullets(ConditionalFields(p)[f].1))
  {
    var fields, blocks := ConditionalFields(p), Blocks(p, ctx);
    SummaryIsReadable(p, ctx);
    if fields[f].1 == [] {
      SectionIsAbsent(p, ctx, f);
    } else {
      SectionIsThere(fields, f);
      var b := Block([""], "## " + fields[f].0, Bullets(fields[f].1));
      assert b in blocks;
      var k :| 0 <= k < |blocks| && blocks[k] == b;
      BlockStands(blocks, k);
    }
  }

  lemma SectionIsAbsent(p: Summary, ctx: Context, f: nat)
    requires IsNormal(p) && IsReadable(Blocks(p, ctx)) && f < |ConditionalFields(p)| && ConditionalFields(p)[f].1 == []
    ensures IsAbsent(Lines(p, ctx), "## " + ConditionalFields(p)[f].0)
  {
    var fields, blocks := ConditionalFields(p), Blocks(p, ctx);
    ConditionalTitleIsFlush(f);
    HeadingMarks(fields[f].0);
    TitlesOfDocument(p, ctx);
    TitlesOfBlocks(blocks);
    forall b | b in blocks ensures TitleOf(b.heading) != fields[f].0 {
      var k :| 0 <= k < |blocks| && blocks[k] == b;
      assert BlockTitles(blocks)[k] == TitleOf(b.heading) && TitleOf(b.heading) in ExpectedHeadings(p);
      NotExpected(p, f);
    }
    TitleIsAbsent(blocks, "## " + fields[f].0);
  }

  lemma NotExpected(p: Summary, f: nat)
    requires f < |ConditionalFields(p)| && ConditionalFields(p)[f].1 == []
    ensures ConditionalFields(p)[f].0 !in ExpectedHeadings(p)
  {
    var fields, title := ConditionalFields(p), ConditionalFields(p)[f].0;
    AllowedDiffer();
    ConditionalAt(f);
    assert title == ALLOWED_HEADINGS[1 + |CORE_SECTION_ORDER| + f];
    forall g | 0 <= g < |fields| && fields[g].0 == title ensures fields[g].1 == [] {
      ConditionalAt(g);
      assert g == f;
    }
    SectionTitled(fields, title);
    forall i | 0 <= i < |CORE_SECTION_ORDER| ensures CORE_SECTION_ORDER[i] != title {
      CoreAt(i);
    }
    assert ALLOWED_HEADINGS[0] == TITLE;
  }

  /* ---- What stands under each heading ---- */

  function Dashes(items: seq<string>): seq<string> {
    seq(|items|, i requires 0 <= i < |items| => "- " + items[i])
  }

  // The values that are not blank, in their order, with single spaces.
  ghost predicate AreRendered(shown: seq<string>, values: seq<string>) {
    exists at: seq<nat> :: RenderedAt(shown, values, at)
  }

  ghost predicate RenderedAt(shown: seq<string>, values: seq<string>, at: seq<nat>) {
    KeptAt(shown, Inlines(values), at)
  }

  function Inlines(values: seq<string>): seq<string> {
    seq(|values|, v requires 0 <= v < |values| => Inline(values[v]))
  }

  // What is shown are the lines at these places, and all others are empty.
  ghost predicate KeptAt(shown: seq<string>, lines: seq<string>, at: seq<nat>) {
    && |at| == |shown| && (forall i, j :: 0 <= i < j < |at| ==> at[i] < at[j])
    && (forall i :: 0 <= i < |at| ==> at[i] < |lines| && shown[i] == lines[at[i]] && shown[i] != [])
    && forall v :: 0 <= v < |lines| && lines[v] != [] ==> v in at
  }

  function Moved(at: seq<nat>): seq<nat> {
    seq(|at|, i requires 0 <= i < |at| => at[i] + 1)
  }

  // One more line before the others: an empty one moves them, another is shown first.
  lemma EmptyFirst(shown: seq<string>, lines: seq<string>, at: seq<nat>)
    requires KeptAt(shown, lines, at)
    ensures KeptAt(shown, [[]] + lines, Moved(at))
  {
    MovedIn(lines, at, [[]] + lines);
    MovedRight(shown, lines, at, [[]] + lines);
  }

  lemma MovedRight(shown: seq<string>, lines: seq<string>, at: seq<nat>, all: seq<string>)
    requires |at| == |shown| && |all| == |lines| + 1 && all[1..] == lines
    requires forall i :: 0 <= i < |at| ==> at[i] < |lines| && shown[i] == lines[at[i]] && shown[i] != []
    ensures forall i :: 0 <= i < |at| ==> Moved(at)[i] < |all| && shown[i] == all[Moved(at)[i]] && shown[i] != []
  {
    forall i | 0 <= i < |at| ensures all[at[i] + 1] == lines[at[i]] {
    }
  }

  lemma LineFirst(line: string, shown: seq<string>, lines: seq<string>, at: seq<nat>)
    requires KeptAt(shown, lines, at) && line != []
    ensures KeptAt([line] + shown, [line] + lines, [0] + Moved(at))
  {
    var places := [0] + Moved(at);
    forall i, j | 0 <= i < j < |places| ensures places[i] < places[j] {
      assert places[j] == at[j - 1] + 1;
      assert i > 0 ==> places[i] == at[i - 1] + 1;
    }
    NoneMissing(line, lines, at);
    NoneWrong(line, shown, lines, at);
  }

  lemma NoneMissing(line: string, lines: seq<string>, at: seq<nat>)
    requires forall v :: 0 <= v < |lines| && lines[v] != [] ==> v in at
    ensures forall v :: 0 <= v < |[line] + lines| && ([line] + lines)[v] != [] ==> v in [0] + Moved(at)
  {
    MovedIn(lines, at, [line] + lines);
  }

  lemma NoneWrong(line: string, shown: seq<string>, lines: seq<string>, at: seq<nat>)
    requires |at| == |shown| && line != []
    requires forall i :: 0 <= i < |at| ==> at[i] < |lines| && shown[i] == lines[at[i]] && shown[i] != []
    ensures var places, all, more := [0] + Moved(at), [line] + lines, [line] + shown;
      forall i :: 0 <= i < |places| ==> places[i] < |all| && more[i] == all[places[i]] && more[i] != []
  {
    var places, all, more := [0] + Moved(at), [line] + lines, [line] + shown;
    forall i | 0 <= i < |places| ensures places[i] < |all| && more[i] == all[places[i]] && more[i] != [] {
      if i > 0 {
        assert places[i] == at[i - 1] + 1 && all[places[i]] == lines[at[i - 1]] && more[i] == shown[i - 1];
      }
    }
  }

  lemma MovedIn(lines: seq<string>, at: seq<nat>, all: seq<string>)
    requires (forall v :: 0 <= v < |lines| && lines[v] != [] ==> v in at) && |all| == |lines| + 1 && all[1..] == lines
    ensures forall v :: 0 < v < |all| && all[v] != [] ==> v in Moved(at)
  {
    forall v | 0 < v < |all| && all[v] != [] ensures v in Moved(at) {
      assert all[v] == lines[v - 1];
      var i :| 0 <= i < |at| && at[i] == v - 1;
      assert Moved(at)[i] == v;
    }
  }

  lemma {:induction false} ShownAreRendered(values: seq<string>) returns (at: seq<nat>)
    ensures RenderedAt(Shown(values), values, at)
  {
    if values == [] {
      at := [];
    } else {
      at := ShownAreRendered(values[1..]);
      at := NextRendered(values, at);
    }
  }

  lemma NextRendered(values: seq<string>, rest: seq<nat>) returns (at: seq<nat>)
    requires values != [] && RenderedAt(Shown(values[1..]), values[1..], rest)
    ensures RenderedAt(Shown(values), values, at)
  {
    at := NextKept(Inline(values[0]), Shown(values[1..]), Inlines(values[1..]), rest);
    assert [Inline(values[0])] + Inlines(values[1..]) == Inlines(values);
  }

  lemma NextKept(line: string, shown: seq<string>, lines: seq<string>, rest: seq<nat>) returns (at: seq<nat>)
    requires KeptAt(shown, lines, rest)
    ensures KeptAt((if line == [] then [] else [line]) + shown, [line] + lines, at)
  {
    if line == [] {
      EmptyFirst(shown, lines, rest);
      assert [] + shown == shown;
      at := Moved(rest);
    } else {
      LineFirst(line, shown, lines, rest);
      at := [0] + Moved(rest);
    }
  }

  ghost predicate IsSection(lines: seq<string>, title: string, body: seq<string>) {
    Stands(lines, "## " + title, body)
  }

  // A list of items under its title, or no such section if there are none.
  ghost predicate IsListSection(lines: seq<string>, title: string, items: seq<string>) {
    if items == [] then IsAbsent(lines, "## " + title) else IsSection(lines, title, Dashes(items))
  }

  // A line that says so where there is nothing to list.
  function OrLine(items: seq<string>, otherwise: string): seq<string> {
    if items == [] then [otherwise] else Dashes(items)
  }

  lemma BulletsAreDashes(items: seq<string>)
    ensures Bullets(items) == Dashes(items)
  {
  }

  lemma OneSection(p: Summary, ctx: Context, f: nat, title: string, items: seq<string>)
    requires IsNormal(p) && !IsMarked(Inline(ctx.className))
    requires f < |ConditionalFields(p)| && ConditionalFields(p)[f] == (title, items)
    ensures IsListSection(Split(Render(p, ctx)), title, items)
  {
    SplitOfRender(p, ctx);
    SectionStands(p, ctx, f);
    BulletsAreDashes(items);
  }

  // Decisions, deadlines, related processes and attachments each under their own title.
  lemma ConditionalSectionsAre(p: Summary, ctx: Context)
    requires IsNormal(p) && !IsMarked(Inline(ctx.className))
    ensures var lines := Split(Render(p, ctx));
      && IsListSection(lines, "Decisões", p.decisions)
      && IsListSection(lines, "Prazos em curso", p.deadlines)
      && IsListSection(lines, "Processos relacionados", p.related)
      && IsListSection(lines, "Anexos", p.attachments)
  {
    OneSection(p, ctx, 0, "Decisões", p.decisions);
    OneSection(p, ctx, 1, "Prazos em curso", p.deadlines);
    OneSection(p, ctx, 2, "Processos relacionados", p.related);
    OneSection(p, ctx, 3, "Anexos", p.attachments);
  }

  lemma OneCore(p: Summary, ctx: Context, i: nat, title: string)
    requires IsNormal(p) && !IsMarked(Inline(ctx.className))
    requires 1 <= i <= |CORE_SECTION_ORDER| && title == CORE_SECTION_ORDER[i - 1]
    ensures IsSection(Split(Render(p, ctx)), title, CoreBody(p, ctx, i))
  {
    SplitOfRender(p, ctx);
    CoreStands(p, ctx, i);
  }

  // The parties and the subjects that are not blank, or a line that there are none.
  lemma NamesAre(p: Summary, ctx: Context) returns (parties: seq<string>, subjects: seq<string>)
    requires IsNormal(p) && !IsMarked(Inline(ctx.className))
    ensures AreRendered(parties, ctx.parties) && IsSection(Split(Render(p, ctx)), "Partes", OrLine(parties, "Não informado."))
    ensures AreRendered(subjects, ctx.subjects) && IsSection(Split(Render(p, ctx)), "Assuntos", OrLine(subjects, "Não informado."))
  {
    parties, subjects := Shown(ctx.parties), Shown(ctx.subjects);
    var at := ShownAreRendered(ctx.parties);
    at := ShownAreRendered(ctx.subjects);
    OneCore(p, ctx, 1, "Partes");
    OneCore(p, ctx, 3, "Assuntos");
    BulletsAreDashes(parties);
    BulletsAreDashes(subjects);
  }

  lemma ClassIs(p: Summary, ctx: Context)
    requires IsNormal(p) && !IsMarked(Inline(ctx.className))
    ensures IsSection(Split(Render(p, ctx)), "Classe", [if Inline(ctx.className) == [] then "Não informado." else Inline(ctx.className)])
  {
    OneCore(p, ctx, 2, "Classe");
  }

  // The movements, or a line that there are none, and the status below them.
  lemma TimelineIs(p: Summary, ctx: Context)
    requires IsNormal(p) && !IsMarked(Inline(ctx.className))
    ensures IsSection(Split(Render(p, ctx)), "Movimentações",
                      OrLine(p.timeline, "Nenhuma movimentação " + "relevante selecionada.") + ["", "Estado atual: " + p.status])
  {
    OneCore(p, ctx, 4, "Movimentações");
    BulletsAreDashes(p.timeline);
  }

  lemma AttentionIs(p: Summary, ctx: Context)
    requires IsNormal(p) && !IsMarked(Inline(ctx.className))
    ensures IsSection(Split(Render(p, ctx)), "Pontos de atenção", Dashes(p.attention))
  {
    OneCore(p, ctx, 5, "Pontos de atenção");
    BulletsAreDashes(p.attention);
  }

  /* ---- The header ---- */

  // A named value, left out if it is blank.
  function Named(name: string, value: string): seq<string> {
    if Inline(value) == [] then [] else ["- " + name + ": " + Inline(value)]
  }

  function ValueAt(values: seq<string>, i: nat): string {
    if i < |values| then values[i] else ""
  }

  lemma FieldIsNamed(name: string, value: string)
    ensures Field(name, value) == Named(name, value)
  {
  }

  lemma HeaderUpTo(values: seq<string>, n: nat, name: string)
    requires n < |HEADER_LABELS| && name == HEADER_LABELS[n]
    ensures HeaderLines(values, n + 1) == HeaderLines(values, n) + Named(name, ValueAt(values, n))
  {
  }

  lemma HeaderFour(values: seq<string>)
    ensures HeaderLines(values, 4) ==
      Named("Instância", ValueAt(values, 0)) + Named("Área", ValueAt(values, 1)) + Named("Justiça", ValueAt(values, 2))
      + Named("Comarca", ValueAt(values, 3))
  {
    HeaderUpTo(values, 0, "Instância");
    assert HeaderLines(values, 1) == Named("Instância", ValueAt(values, 0));
    HeaderUpTo(values, 1, "Área");
    HeaderUpTo(values, 2, "Justiça");
    HeaderUpTo(values, 3, "Comarca");
  }

  // The seven header fields of the process, in their order.
  lemma HeaderIs(values: seq<string>)
    ensures HeaderLines(values, |HEADER_LABELS|) ==
      Named("Instância", ValueAt(values, 0)) + Named("Área", ValueAt(values, 1)) + Named("Justiça", ValueAt(values, 2))
      + Named("Comarca", ValueAt(values, 3)) + Named("Estado", ValueAt(values, 4)) + Named("Cidade", ValueAt(values, 5))
      + Named("Valor", ValueAt(values, 6))
  {
    HeaderFour(values);
    HeaderUpTo(values, 4, "Estado");
    HeaderUpTo(values, 5, "Cidade");
    HeaderUpTo(values, 6, "Valor");
  }

  // Below the title: the number of the process, its class and its court, its header and the synthesis.
  lemma PreambleIs(p: Summary, ctx: Context)
    requires IsNormal(p) && !IsMarked(Inline(ctx.className))
    ensures Stands(Split(Render(p, ctx)), "# " + "Resumo do processo",
      ["", "<" + "ProcessHeader" + " " + "className=\"process-header\"" + ">", "- Processo: " + Inline(ctx.code)]
      + Named("Classe", ctx.className) + Named("Tribunal", ctx.court) + HeaderLines(ctx.header, |HEADER_LABELS|)
      + ["</" + "ProcessHeader" + ">", "", p.synthesis])
  {
    SplitOfRender(p, ctx);
    CoreStands(p, ctx, 0);
    FieldIsNamed("Classe", ctx.className);
    FieldIsNamed("Tribunal", ctx.court);
  }
}
