/** render_structured_summary as the loops that append to its list of lines (app/summary_output.py). */
module SummaryWriter {
  import opened Text
  import opened SummaryOutput
  import opened SummaryRender

  lemma {:induction false} ShownSnoc(values: seq<string>, last: string)
    ensures Shown(values + [last]) == Shown(values) + if Inline(last) == [] then [] else [Inline(last)]
  {
    if values == [] {
      assert values + [last] == [last];
    } else {
      ShownSnoc(values[1..], last);
      assert (values + [last])[1..] == values[1..] + [last];
    }
  }

  // The names of parties or subjects that are not blank.
  method NamesOf(values: seq<string>) returns (names: seq<string>)
    ensures names == Shown(values)
  {
    names := [];
    var i := 0;
    while i < |values|
      invariant 0 <= i <= |values|
      invariant names == Shown(values[..i])
    {
      var name := Inline(values[i]);
      ShownSnoc(values[..i], values[i]);
      assert values[..i + 1] == values[..i] + [values[i]];
      if name != [] {
        names := names + [name];
      }
      i := i + 1;
    }
    assert values[..i] == values;
  }

  method Bulleted(items: seq<string>) returns (lines: seq<string>)
    ensures lines == Bullets(items)
  {
    lines := [];
    var i := 0;
    while i < |items|
      invariant 0 <= i <= |items|
      invariant lines == Bullets(items[..i])
    {
      lines := lines + ["- " + items[i]];
      i := i + 1;
    }
    assert items[..i] == items;
  }

  method HeaderFieldLines(values: seq<string>) returns (lines: seq<string>)
    ensures lines == HeaderLines(values, |HEADER_LABELS|)
  {
    lines := [];
    var i := 0;
    while i < |HEADER_LABELS|
      invariant 0 <= i <= |HEADER_LABELS|
      invariant lines == HeaderLines(values, i)
    {
      var value := Inline(if i < |values| then values[i] else "");
      if value != [] {
        lines := lines + ["- " + HEADER_LABELS[i] + ": " + value];
      }
      i := i + 1;
    }
  }

  method FieldLine(name: string, raw: string) returns (lines: seq<string>)
    ensures lines == Field(name, raw)
  {
    lines := [];
    var value := Inline(raw);
    if value != [] {
      lines := lines + ["- " + name + ": " + value];
    }
  }

  method PreambleLines(p: Summary, ctx: Context) returns (lines: seq<string>)
    ensures lines == Preamble(p, ctx)
  {
    var className := FieldLine("Classe", ctx.className);
    var court := FieldLine("Tribunal", ctx.court);
    var header := HeaderFieldLines(ctx.header);
    lines := Opening(ctx) + className + court + header + Closing(p);
  }

  // The lines below the title or below core section i.
  method CoreLines(p: Summary, ctx: Context, i: nat) returns (lines: seq<string>)
    requires i <= |CORE_SECTION_ORDER|
    ensures lines == CoreBody(p, ctx, i)
  {
    if i == 0 {
      lines := PreambleLines(p, ctx);
    } else if i == 1 || i == 3 {
      var names := NamesOf(if i == 1 then ctx.parties else ctx.subjects);
      lines := Bulleted(names);
      if names == [] {
        lines := [NOT_INFORMED];
      }
    } else if i == 2 {
      lines := [if Inline(ctx.className) != [] then Inline(ctx.className) else NOT_INFORMED];
    } else if i == 4 {
      lines := Bulleted(p.timeline);
      if p.timeline == [] {
        lines := [NOTHING_SELECTED];
      }
      lines := lines + ["", "Estado atual: " + p.status];
    } else {
      lines := Bulleted(p.attention);
    }
  }

  lemma FlattenSnoc(blocks: seq<Block>, b: Block)
    ensures Flatten(blocks + [b]) == Flatten(blocks) + BlockLines(b)
  {
    FlattenTogether(blocks, [b]);
    FlattenCons(b, []);
    assert [b] + [] == [b];
    assert Flatten([]) == [];
    assert BlockLines(b) + [] == BlockLines(b);
  }

  lemma {:induction false} SectionsSnoc(fields: seq<(string, seq<string>)>, f: (string, seq<string>))
    ensures SectionBlocks(fields + [f]) == SectionBlocks(fields) + SectionBlocks([f])
  {
    if fields == [] {
      assert fields + [f] == [f];
    } else {
      SectionsSnoc(fields[1..], f);
      assert (fields + [f])[1..] == fields[1..] + [f];
    }
  }

  // _append_list
  method AppendList(lines: seq<string>, title: string, items: seq<string>) returns (all: seq<string>)
    ensures all == lines + Flatten(SectionBlocks([(title, items)]))
  {
    all := lines;
    if items != [] {
      var bullets := Bulleted(items);
      all := lines + ["", "## " + title] + bullets;
      var b := Block([""], "## " + title, bullets);
      FlattenSnoc([], b);
      assert [] + [b] == [b];
      assert BlockLines(b) == ["", "## " + title] + bullets;
    }
  }

  method CoreText(p: Summary, ctx: Context) returns (lines: seq<string>)
    ensures lines == Flatten(CoreBlocks(p, ctx))
  {
    lines := [];
    var i := 0;
    while i <= |CORE_SECTION_ORDER|
      invariant 0 <= i <= |CORE_SECTION_ORDER| + 1
      invariant lines == Flatten(CoreBlocks(p, ctx)[..i])
    {
      var body := CoreLines(p, ctx, i);
      var lead: seq<string> := if i == 0 then [] else [""];
      var heading := if i == 0 then "# " + TITLE else "## " + CORE_SECTION_ORDER[i - 1];
      CoreSnoc(p, ctx, i, Block(lead, heading, body));
      lines := lines + (lead + [heading] + body);
      i := i + 1;
    }
    assert CoreBlocks(p, ctx)[..i] == CoreBlocks(p, ctx);
  }

  method AppendSections(core: seq<string>, fields: seq<(string, seq<string>)>) returns (lines: seq<string>)
    ensures lines == core + Flatten(SectionBlocks(fields))
  {
    lines := core;
    var k := 0;
    while k < |fields|
      invariant 0 <= k <= |fields|
      invariant lines == core + Flatten(SectionBlocks(fields[..k]))
    {
      lines := AppendList(lines, fields[k].0, fields[k].1);
      SectionsSnoc(fields[..k], fields[k]);
      assert fields[..k + 1] == fields[..k] + [fields[k]];
      FlattenTogether(SectionBlocks(fields[..k]), SectionBlocks([fields[k]]));
      k := k + 1;
    }
    assert fields[..k] == fields;
  }

  method RenderStructuredSummary(p: Summary, ctx: Context) returns (text: string)
    ensures text == Render(p, ctx)
  {
    var lines := CoreText(p, ctx);
    lines := AppendSections(lines, ConditionalFields(p));
    FlattenTogether(CoreBlocks(p, ctx), SectionBlocks(ConditionalFields(p)));
    text := Strip(Join(lines));
  }

  lemma CoreSnoc(p: Summary, ctx: Context, i: nat, b: Block)
    requires i <= |CORE_SECTION_ORDER| && b == CoreBlock(p, ctx, i)
    ensures Flatten(CoreBlocks(p, ctx)[..i + 1]) == Flatten(CoreBlocks(p, ctx)[..i]) + BlockLines(b)
  {
    var core := CoreBlocks(p, ctx);
    assert core[..i + 1] == core[..i] + [b];
    FlattenSnoc(core[..i], b);
  }
}
