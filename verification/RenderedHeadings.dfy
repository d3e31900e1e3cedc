/** Every summary that parses, once rendered (app/summary_output.py), passes the heading checks of
    app/validation.py. */
module RenderedHeadings {
  import opened Wrappers
  import opened Text
  import opened SummaryOutput
  import opened SummaryRender
  import opened SummaryLines
  import opened HeadingChecks

  /* ---- Lines and headings ---- */

  lemma {:induction false} MarksAre(line: string, n: nat)
    requires n <= |line| && (forall i :: 0 <= i < n ==> line[i] == '#') && (n < |line| ==> line[n] != '#')
    ensures Hashmarks(line) == n
  {
    if n != 0 {
      MarksAre(line[1..], n - 1);
    }
  }

  lemma {:induction false} MarksEnd(line: string)
    ensures Hashmarks(line) <= |line|
    ensures forall i :: 0 <= i < Hashmarks(line) ==> line[i] == '#'
    ensures Hashmarks(line) < |line| ==> line[Hashmarks(line)] != '#'
  {
    if line != [] && line[0] == '#' {
      MarksEnd(line[1..]);
      assert forall i :: 1 <= i < |line| ==> line[i] == line[1..][i - 1];
    }
  }

  // One to six marks, and then whitespace or the end of the line.
  lemma MarkedMeans(line: string)
    ensures IsMarked(line) <==> exists n :: 1 <= n <= 6 && BeginsWithMarks(line, n)
  {
    MarksEnd(line);
    if IsMarked(line) {
      assert BeginsWithMarks(line, Hashmarks(line));
    }
    if n :| 1 <= n <= 6 && BeginsWithMarks(line, n) {
      MarksAre(line, n);
    }
  }

  predicate BeginsWithMarks(line: string, n: nat) {
    n <= |line| && (forall i :: 0 <= i < n ==> line[i] == '#') && (n < |line| ==> line[n] != '#' && IsSpace(line[n]))
  }

  // ^#{1,6}\s+\S matches at the start: marks, whitespace and then something else.
  predicate MatchesHeading(text: string) {
    exists n :: 1 <= n <= 6 && StartsWithMarks(text, n) && !IsBlank(text[n..])
  }

  predicate StartsWithMarks(text: string, n: nat) {
    n < |text| && (forall k :: 0 <= k < n ==> text[k] == '#') && IsSpace(text[n])
  }

  lemma BlankTogether(a: string, b: string)
    ensures IsBlank(a + b) <==> IsBlank(a) && IsBlank(b)
  {
    if IsBlank(a + b) {
      assert forall i :: 0 <= i < |a| ==> a[i] == (a + b)[i];
      assert forall i :: 0 <= i < |b| ==> b[i] == (a + b)[|a| + i];
    }
  }

  lemma {:induction false} BlankJoined(lines: seq<string>)
    ensures IsBlank(Join(lines)) <==> forall j :: 0 <= j < |lines| ==> IsBlank(lines[j])
  {
    if |lines| > 1 {
      BlankJoined(lines[1..]);
      BlankTogether(lines[0] + ['\n'], Join(lines[1..]));
      BlankTogether(lines[0], ['\n']);
      assert forall j :: 0 < j < |lines| ==> lines[j] == lines[1..][j - 1];
    }
  }

  lemma MatchesAfter(line: string, tail: string)
    requires tail == [] || tail[0] == '\n'
    ensures Hashmarks(line) <= |line|
    ensures MatchesHeading(line + tail) <==> IsMarked(line) && !IsBlank(line[Hashmarks(line)..] + tail)
  {
    var h, text := Hashmarks(line), line + tail;
    MarksEnd(line);
    assert text[h..] == line[h..] + tail;
    if IsMarked(line) && !IsBlank(text[h..]) {
      assert StartsWithMarks(text, h) by {
        assert h < |text| && text[h] == if h < |line| then line[h] else tail[0];
      }
    }
    assert |line| < |text| ==> text[|line|] == '\n';
    if n :| 1 <= n <= 6 && StartsWithMarks(text, n) && !IsBlank(text[n..]) {
      assert n < |line| ==> line[n] == text[n];
      MarksAre(line, n);
    }
  }

  // The next heading pattern matches at a line exactly if it matches what begins there.
  lemma OpensMeans(lines: seq<string>, i: nat)
    requires i < |lines|
    ensures Opens(lines, i) <==> MatchesHeading(Join(lines[i..]))
  {
    var line, rest := lines[i], lines[i + 1..];
    var tail := if rest == [] then [] else ['\n'] + Join(rest);
    assert lines[i..][0] == line && lines[i..][1..] == rest;
    assert Join(lines[i..]) == line + tail;
    MatchesAfter(line, tail);
    BlankTogether(line[Hashmarks(line)..], tail);
    StripOfBlank(line[Hashmarks(line)..]);
    RestIsBlank(lines, i);
  }

  lemma RestIsBlank(lines: seq<string>, i: nat)
    requires i < |lines|
    ensures var rest := lines[i + 1..]; var tail := if rest == [] then [] else ['\n'] + Join(rest);
      IsBlank(tail) <==> forall j :: i < j < |lines| ==> IsBlank(lines[j])
  {
    var rest := lines[i + 1..];
    BlankJoined(rest);
    BlankTogether(['\n'], Join(rest));
    assert forall j :: i < j < |lines| ==> lines[j] == rest[j - i - 1];
  }

  lemma {:induction false} StripRightCuts(s: string)
    ensures StripRight(s) <= s && IsBlank(s[|StripRight(s)|..])
    decreases |s|
  {
    if s != [] && IsSpace(s[|s| - 1]) {
      var front := s[..|s| - 1];
      StripRightCuts(front);
      var n := |StripRight(s)|;
      assert s[n..] == front[n..] + [s[|s| - 1]];
    }
  }

  // Stripping a line that is not indented makes no heading of it.
  lemma StrippedMarks(line: string)
    requires line != [] ==> !IsSpace(line[0])
    requires IsMarked(Strip(line))
    ensures IsMarked(line)
  {
    var r := Strip(line);
    assert r == StripRight(line);
    StripRightCuts(line);
    MarksEnd(r);
    var n := Hashmarks(r);
    if n == |r| && n < |line| {
      assert line[n..][0] == line[n];
    }
    MarksAre(line, n);
  }

  // Flush lines with the marked ones being proper headings.
  predicate IsDocumentLine(line: string) {
    IsFlush(line) && (IsMarked(line) ==> IsHeadingLine(line))
  }

  // Read line by line or by the heading pattern, such a text has the same titles.
  lemma {:induction false} TitlesAgree(lines: seq<string>)
    requires forall i :: 0 <= i < |lines| ==> IsDocumentLine(lines[i])
    ensures LineTitles(Stripped(lines)) == Headings(lines)
  {
    if lines != [] {
      var line, rest := lines[0], Stripped(lines[1..]);
      TitlesAgree(lines[1..]);
      assert IsDocumentLine(line);
      if IsMarked(line) {
        StripOfTrimmed(line);
      } else if IsMarked(Strip(line)) {
        StrippedMarks(line);
        assert false;
      }
      if Strip(line) == [] {
        assert Stripped(lines) == rest;
      } else {
        assert Stripped(lines)[1..] == rest;
      }
    }
  }

  lemma {:induction false} JoinIsUnbroken(lines: seq<string>)
    requires AllFlush(lines)
    ensures Unbroken(Join(lines)) == Join(lines)
  {
    if lines != [] {
      assert IsFlush(lines[0]);
      JoinIsUnbroken(lines[1..]);
      var text, rest := Join(lines), Join(lines[1..]);
      forall i | 0 <= i < |text| ensures Unbroken(text)[i] == text[i] {
        if i < |lines[0]| {
          assert text[i] == lines[0][i];
        } else if i > |lines[0]| {
          var k := i - |lines[0]| - 1;
          assert text[i] == rest[k] && Unbroken(rest)[k] == rest[k];
        }
      }
    }
  }

  /* ---- The titles of a rendered summary ---- */

  // Titles picked from allowed ones in their order.
  ghost predicate Picks(allowed: seq<string>, titles: seq<string>, at: seq<nat>) {
    && |titles| == |at|
    && (forall i :: 0 <= i < |at| ==> at[i] < |allowed| && titles[i] == allowed[at[i]])
    && Ascending(at, true)
  }

  lemma PickMore(title: string, titles: seq<string>, first: nat, at: seq<nat>)
    requires Picks(ALLOWED_HEADINGS, titles, at) && (forall i :: 0 <= i < |at| ==> first < at[i])
    requires first < |ALLOWED_HEADINGS| && title == ALLOWED_HEADINGS[first]
    ensures Picks(ALLOWED_HEADINGS, [title] + titles, [first] + at)
  {
  }

  lemma {:induction false} SectionPicks(p: Summary, k: nat) returns (at: seq<nat>)
    requires k <= |CONDITIONAL_SECTION_ORDER|
    ensures Picks(ALLOWED_HEADINGS, SectionTitles(ConditionalFields(p)[k..]), at)
    ensures forall i :: 0 <= i < |at| ==> 1 + |CORE_SECTION_ORDER| + k <= at[i]
    decreases |CONDITIONAL_SECTION_ORDER| - k
  {
    var fields := ConditionalFields(p);
    if k == |fields| {
      at := [];
    } else {
      at := SectionPicks(p, k + 1);
      assert fields[k..][0] == fields[k] && fields[k..][1..] == fields[k + 1..];
      var title, more := fields[k].0, SectionTitles(fields[k + 1..]);
      if fields[k].1 != [] {
        ConditionalAt(k);
        PickMore(title, more, 1 + |CORE_SECTION_ORDER| + k, at);
        at := [1 + |CORE_SECTION_ORDER| + k] + at;
      } else {
        assert SectionTitles(fields[k..]) == more;
      }
    }
  }

  lemma ConditionalAt(k: nat)
    requires k < |CONDITIONAL_SECTION_ORDER|
    ensures ALLOWED_HEADINGS[1 + |CORE_SECTION_ORDER| + k] == CONDITIONAL_SECTION_ORDER[k]
  {
  }

  lemma CoreAt(k: nat)
    requires k < |CORE_SECTION_ORDER|
    ensures ALLOWED_HEADINGS[1 + k] == CORE_SECTION_ORDER[k]
  {
  }

  lemma {:induction false} CorePicks(k: nat, titles: seq<string>, at: seq<nat>) returns (all: seq<nat>)
    requires k <= |CORE_SECTION_ORDER| && Picks(ALLOWED_HEADINGS, titles, at)
    requires forall i :: 0 <= i < |at| ==> 1 + |CORE_SECTION_ORDER| <= at[i]
    ensures Picks(ALLOWED_HEADINGS, CORE_SECTION_ORDER[k..] + titles, all)
    ensures forall i :: 0 <= i < |all| ==> 1 + k <= all[i]
    decreases |CORE_SECTION_ORDER| - k
  {
    var core := CORE_SECTION_ORDER;
    if k == |core| {
      all := at;
      assert core[k..] + titles == titles;
    } else {
      all := CorePicks(k + 1, titles, at);
      CoreAt(k);
      PickMore(core[k], core[k + 1..] + titles, 1 + k, all);
      assert core[k..] + titles == [core[k]] + (core[k + 1..] + titles);
      all := [1 + k] + all;
    }
  }

  lemma ExpectedPicks(p: Summary) returns (at: seq<nat>)
    ensures Picks(ALLOWED_HEADINGS, ExpectedHeadings(p), at)
  {
    var sections := SectionPicks(p, 0);
    var fields := ConditionalFields(p);
    assert fields[0..] == fields;
    var core := CORE_SECTION_ORDER;
    var rest := CorePicks(0, SectionTitles(fields), sections);
    assert core[0..] == core;
    PickMore(TITLE, core + SectionTitles(fields), 0, rest);
    at := [0] + rest;
    assert [TITLE] + (core + SectionTitles(fields)) == ExpectedHeadings(p);
  }

  // Which section an allowed title means, the sections being the allowed titles from start on.
  lemma IndexOfAllowed(allowed: seq<string>, order: seq<string>, start: nat, q: nat, norm: string -> string)
    requires TellsApart(allowed, norm) && start + |order| <= |allowed| && q < |allowed|
    requires order == allowed[start..start + |order|]
    ensures IndexIn(order, allowed[q], norm) == if start <= q < start + |order| then Some(q - start) else None
  {
    if start <= q < start + |order| {
      assert order[q - start] == allowed[q];
    }
    IndexMeans(order, allowed[q], norm);
    var found := IndexIn(order, allowed[q], norm);
    if found.Some? {
      assert norm(allowed[q]) == norm(allowed[start + found.value]);
    }
  }

  lemma PicksKeepOrder(allowed: seq<string>, titles: seq<string>, at: seq<nat>, order: seq<string>, start: nat, norm: string -> string)
    requires Picks(allowed, titles, at) && TellsApart(allowed, norm)
    requires start + |order| <= |allowed| && order == allowed[start..start + |order|]
    ensures forall i, j :: 0 <= i < j < |titles| ==> Before(order, titles[i], titles[j], norm, true)
  {
    forall i, j | 0 <= i < j < |titles| ensures Before(order, titles[i], titles[j], norm, true) {
      IndexOfAllowed(allowed, order, start, at[i], norm);
      IndexOfAllowed(allowed, order, start, at[j], norm);
      assert at[i] < at[j];
    }
  }

  lemma PickIsExact(allowed: seq<string>, q: nat, core: nat, norm: string -> string)
    requires TellsApart(allowed, norm) && q < |allowed| && core == |CORE_SECTION_ORDER| && 1 + core <= |allowed|
    requires allowed[1..1 + core] == CORE_SECTION_ORDER
    ensures IsExact(CORE_SECTION_ORDER, allowed[q], norm)
  {
    IndexOfAllowed(allowed, CORE_SECTION_ORDER, 1, q, norm);
    if 1 <= q < 1 + core {
      assert allowed[1..1 + core][q - 1] == allowed[q];
    }
  }

  lemma OrdersAreAllowed(core: nat, all: nat)
    requires core == |CORE_SECTION_ORDER| && all == |ALLOWED_HEADINGS|
    ensures ALLOWED_HEADINGS[1..1 + core] == CORE_SECTION_ORDER && ALLOWED_HEADINGS[1 + core..all] == CONDITIONAL_SECTION_ORDER
    ensures 1 + core + |CONDITIONAL_SECTION_ORDER| == all
  {
  }

  lemma PicksAreInOrder(titles: seq<string>, at: seq<nat>, norm: string -> string)
    requires Picks(ALLOWED_HEADINGS, titles, at) && TellsApart(ALLOWED_HEADINGS, norm)
    ensures CoreInOrder(titles, norm) && ConditionalInOrder(titles, norm)
  {
    var core := |CORE_SECTION_ORDER|;
    OrdersAreAllowed(core, |ALLOWED_HEADINGS|);
    PicksKeepOrder(ALLOWED_HEADINGS, titles, at, CORE_SECTION_ORDER, 1, norm);
    forall i | 0 <= i < |titles| ensures IsExact(CORE_SECTION_ORDER, titles[i], norm) {
      PickIsExact(ALLOWED_HEADINGS, at[i], core, norm);
    }
    PicksKeepOrder(ALLOWED_HEADINGS, titles, at, CONDITIONAL_SECTION_ORDER, 1 + core, norm);
  }

  lemma PicksAreAllowed(titles: seq<string>, at: seq<nat>, norm: string -> string)
    requires Picks(ALLOWED_HEADINGS, titles, at) && TellsApart(ALLOWED_HEADINGS, norm)
    ensures forall i :: 0 <= i < |titles| ==> IsAllowed(titles[i], norm)
  {
  }

  lemma PicksHaveOneTitle(allowed: seq<string>, titles: seq<string>, at: seq<nat>, norm: string -> string)
    requires Picks(allowed, titles, at) && TellsApart(allowed, norm) && allowed != [] && allowed[0] == TITLE
    ensures AtMostOneTitle(titles, norm)
  {
    forall i, j | 0 <= i < j < |titles| ensures norm(titles[i]) != norm(TITLE) || norm(titles[j]) != norm(TITLE) {
      assert at[i] < at[j];
    }
  }

  /* ---- The attention section of a rendered summary ---- */

  ghost predicate Unasked(lines: seq<string>, asks: string -> bool) {
    forall k :: 0 <= k < |lines| ==> !IsAttention(lines[k], asks)
  }

  lemma UnaskedTogether(front: seq<string>, back: seq<string>, asks: string -> bool)
    requires Unasked(front, asks) && Unasked(back, asks)
    ensures Unasked(front + back, asks)
  {
    forall k | 0 <= k < |front + back| ensures !IsAttention((front + back)[k], asks) {
      assert (front + back)[k] == if k < |front| then front[k] else back[k - |front|];
    }
  }

  lemma {:induction false} NoAttention(blocks: seq<Block>, asks: string -> bool)
    requires forall b :: b in blocks ==> GoodBlock(b) && !asks(TitleOf(b.heading))
    ensures Unasked(Flatten(blocks), asks)
  {
    if blocks != [] {
      var b := blocks[0];
      assert b in blocks;
      UnaskedTogether(b.lead, [b.heading], asks);
      UnaskedTogether(b.lead + [b.heading], b.body, asks);
      NoAttention(blocks[1..], asks);
      UnaskedTogether(BlockLines(b), Flatten(blocks[1..]), asks);
    }
  }

  // The blank lines before the next block.
  function Gap(tail: seq<Block>): seq<string> {
    if tail == [] then [] else tail[0].lead
  }

  // Some lines, a heading, quiet lines and then the next heading or the end.
  lemma BodyAt(before: seq<string>, heading: string, body: seq<string>, rest: seq<string>, asks: string -> bool)
    requires Unasked(before, asks)
    requires IsAttention(heading, asks) && Quiet(body) && (rest != [] ==> IsMarked(rest[0]) && TitleOf(rest[0]) != [])
    ensures var lines := before + [heading] + body + rest;
      var i, j := |before|, |before| + 1 + |body|;
      IsBody(lines, asks, i, j) && lines[i + 1..j] == body
  {
    var lines := before + [heading] + body + rest;
    var i, j := |before|, |before| + 1 + |body|;
    assert lines[i] == heading;
    forall k | i < k < j ensures !Opens(lines, k) {
      assert lines[k] == body[k - i - 1];
    }
    if rest != [] {
      assert lines[j] == rest[0];
    }
  }

  lemma BodyOfBlock(front: seq<Block>, b: Block, tail: seq<Block>, asks: string -> bool)
    requires forall x :: x in front ==> GoodBlock(x) && !asks(TitleOf(x.heading))
    requires GoodBlock(b) && asks(TitleOf(b.heading)) && (tail != [] ==> GoodBlock(tail[0]))
    ensures var before, body := Flatten(front) + b.lead, b.body + Gap(tail);
      IsBody(Flatten(front + [b] + tail), asks, |before|, |before| + 1 + |body|)
      && Flatten(front + [b] + tail)[|before| + 1..|before| + 1 + |body|] == body
  {
    var before, body := Flatten(front) + b.lead, b.body + Gap(tail);
    NoAttentionBefore(front, b.lead, asks);
    var rest := if tail == [] then [] else [tail[0].heading] + tail[0].body + Flatten(tail[1..]);
    BodyAt(before, b.heading, body, rest, asks);
    FlattenAt(front, b, tail);
    AfterTheGap(tail);
    Regroup(Flatten(front), b.lead, [b.heading], b.body, Gap(tail), rest);
  }

  lemma NoAttentionBefore(front: seq<Block>, lead: seq<string>, asks: string -> bool)
    requires (forall x :: x in front ==> GoodBlock(x) && !asks(TitleOf(x.heading))) && Quiet(lead)
    ensures Unasked(Flatten(front) + lead, asks)
  {
    NoAttention(front, asks);
    UnaskedTogether(Flatten(front), lead, asks);
  }

  lemma AfterTheGap(tail: seq<Block>)
    ensures Flatten(tail) == Gap(tail) + if tail == [] then [] else [tail[0].heading] + tail[0].body + Flatten(tail[1..])
  {
  }

  lemma Regroup<T>(a: seq<T>, b: seq<T>, c: seq<T>, d: seq<T>, e: seq<T>, f: seq<T>)
    ensures a + (b + c + d + (e + f)) == (a + b) + c + (d + e) + f
  {
  }

  lemma {:induction false} JoinBlank(lines: seq<string>)
    requires lines != []
    ensures Join(lines + [""]) == Join(lines) + ['\n']
  {
    if |lines| == 1 {
      assert (lines + [""])[1..] == [""];
    } else {
      JoinBlank(lines[1..]);
      assert (lines + [""])[1..] == lines[1..] + [""];
    }
  }

  lemma StripsTheGap(lines: seq<string>, gap: seq<string>)
    requires lines != [] && lines[0] != [] && AllFlush(lines) && EndsWell(lines) && (gap == [] || gap == [""])
    ensures Strip(Join(lines + gap)) == Join(lines) && Join(lines) != []
  {
    JoinEnds(lines);
    RejoinedLines(lines);
    assert IsFlush(lines[0]);
    if gap == [] {
      assert lines + gap == lines;
    } else {
      JoinBlank(lines);
      var text := Join(lines);
      assert (text + ['\n'])[..|text|] == text;
    }
  }

  lemma DocumentBlocks(p: Summary, ctx: Context)
    requires IsNormal(p) && !IsMarked(ClassLine(ctx))
    ensures forall b :: b in Blocks(p, ctx) ==> GoodBlock(b) && FlushBlock(b)
  {
    BlocksAreFlush(p, ctx);
    var blocks := Blocks(p, ctx);
    forall b | b in blocks ensures GoodBlock(b) {
      var i :| 0 <= i < |blocks| && blocks[i] == b;
      BlockOf(p, ctx, i);
    }
  }

  lemma {:induction false} BlocksMakeDocumentLines(blocks: seq<Block>)
    requires forall b :: b in blocks ==> GoodBlock(b) && FlushBlock(b)
    ensures forall i :: 0 <= i < |Flatten(blocks)| ==> IsDocumentLine(Flatten(blocks)[i])
  {
    if blocks != [] {
      var b := blocks[0];
      BlocksMakeDocumentLines(blocks[1..]);
      assert GoodBlock(b) && FlushBlock(b);
      var lines, rest := BlockLines(b), Flatten(blocks[1..]);
      forall i | 0 <= i < |Flatten(blocks)| ensures IsDocumentLine(Flatten(blocks)[i]) {
        if i < |b.lead| {
          assert Flatten(blocks)[i] == b.lead[i];
        } else if i < |lines| {
          assert Flatten(blocks)[i] == lines[i];
        } else {
          assert Flatten(blocks)[i] == rest[i - |lines|];
        }
      }
    }
  }


  lemma CoreTitleAsks(p: Summary, ctx: Context, i: nat, asks: string -> bool)
    requires i <= |CORE_SECTION_ORDER| && PicksAttention(asks)
    ensures asks(TitleOf(CoreBlock(p, ctx, i).heading)) <==> i == |CORE_SECTION_ORDER|
  {
    CoreHeading(p, ctx, i);
    if i == 0 {
      assert ALLOWED_HEADINGS[0] == TITLE;
    } else {
      CoreAt(i - 1);
    }
    assert TitleOf(CoreBlock(p, ctx, i).heading) == ALLOWED_HEADINGS[i];
  }

  lemma {:induction false} SectionLeads(fields: seq<(string, seq<string>)>)
    ensures forall b :: b in SectionBlocks(fields) ==> b.lead == [""]
  {
    if fields != [] {
      SectionLeads(fields[1..]);
    }
  }

  // The blocks before the attention block, that block, and the ones after it.
  lemma AroundAttention(p: Summary, ctx: Context, n: nat)
    requires n == |CORE_SECTION_ORDER|
    ensures var core, sections := CoreBlocks(p, ctx), SectionBlocks(ConditionalFields(p));
      |core| == n + 1 && core[n] == CoreBlock(p, ctx, n) && Blocks(p, ctx) == core[..n] + [core[n]] + sections
  {
  }

  // Only the attention block has the title the pattern asks for.
  lemma OnlyAttentionAsks(p: Summary, ctx: Context, asks: string -> bool, n: nat)
    requires IsNormal(p) && !IsMarked(ClassLine(ctx)) && PicksAttention(asks) && n == |CORE_SECTION_ORDER|
    ensures var core, sections := CoreBlocks(p, ctx), SectionBlocks(ConditionalFields(p));
      && |core| == n + 1
      && (forall x :: x in core[..n] ==> GoodBlock(x) && !asks(TitleOf(x.heading)))
      && GoodBlock(core[n]) && asks(TitleOf(core[n].heading)) && (sections != [] ==> GoodBlock(sections[0]))
  {
    var core, sections := CoreBlocks(p, ctx), SectionBlocks(ConditionalFields(p));
    forall k | 0 <= k <= n ensures GoodBlock(core[k]) && (asks(TitleOf(core[k].heading)) <==> k == n) {
      CoreIsGood(p, ctx, k);
      CoreTitleAsks(p, ctx, k, asks);
    }
    ConditionalsAreGood(p);
  }

  // Lines i + 1 to j - 1 are the attention items, maybe with a blank line after them.
  lemma AttentionLines(p: Summary, ctx: Context, asks: string -> bool, n: nat) returns (i: nat, j: nat, gap: seq<string>)
    requires IsNormal(p) && !IsMarked(ClassLine(ctx)) && PicksAttention(asks) && n == |CORE_SECTION_ORDER|
    ensures IsBody(Lines(p, ctx), asks, i, j)
    ensures Lines(p, ctx)[i + 1..j] == CoreBlock(p, ctx, n).body + gap && (gap == [] || gap == [""])
  {
    var core, sections := CoreBlocks(p, ctx), SectionBlocks(ConditionalFields(p));
    AroundAttention(p, ctx, n);
    SectionLeads(ConditionalFields(p));
    OnlyAttentionAsks(p, ctx, asks, n);
    i, j := BodyOf(Blocks(p, ctx), core[..n], core[n], sections, asks);
    gap := Gap(sections);
  }

  lemma BodyOf(blocks: seq<Block>, front: seq<Block>, b: Block, tail: seq<Block>, asks: string -> bool) returns (i: nat, j: nat)
    requires blocks == front + [b] + tail
    requires forall x :: x in front ==> GoodBlock(x) && !asks(TitleOf(x.heading))
    requires GoodBlock(b) && asks(TitleOf(b.heading)) && (tail != [] ==> GoodBlock(tail[0]))
    ensures IsBody(Flatten(blocks), asks, i, j) && Flatten(blocks)[i + 1..j] == b.body + Gap(tail)
  {
    BodyOfBlock(front, b, tail, asks);
    var before := Flatten(front) + b.lead;
    i, j := |before|, |before| + 1 + |b.body + Gap(tail)|;
  }

  lemma AttentionText(p: Summary, gap: seq<string>)
    requires IsNormal(p) && (gap == [] || gap == [""])
    ensures Strip(Join(Bullets(p.attention) + gap)) == Join(Bullets(p.attention)) && Join(Bullets(p.attention)) != []
  {
    BulletsAreFlush(p.attention);
    BulletsEndWell(p.attention);
    StripsTheGap(Bullets(p.attention), gap);
  }

  lemma TitlesOfRender(p: Summary, ctx: Context)
    requires IsNormal(p) && !IsMarked(ClassLine(ctx))
    ensures var text := Render(p, ctx);
      LineTitles(TextLines(text)) == Headings(Split(text)) == ExpectedHeadings(p) && StartsWithTitle(TextLines(text))
  {
    SplitOfRender(p, ctx);
    JoinIsUnbroken(Lines(p, ctx));
    DocumentBlocks(p, ctx);
    BlocksMakeDocumentLines(Blocks(p, ctx));
    TitlesAgree(Lines(p, ctx));
    DocumentHeadings(p, ctx);
    FirstLine(p, ctx, 0);
    HeadingLineIsKept(Lines(p, ctx));
  }

  lemma HeadingLineIsKept(lines: seq<string>)
    requires lines != [] && lines[0] != [] && IsTrimmed(lines[0])
    ensures Stripped(lines) != [] && Stripped(lines)[0] == lines[0]
  {
    StripOfTrimmed(lines[0]);
  }

  // Whatever the provider answered, once it parses, the rendered document has no heading error,
  // unless the class name reads as a heading.
  lemma RenderedPasses(payload: Json, render: Json -> string, ctx: Context, norm: string -> string, asks: string -> bool)
    requires Parse(payload, render).Ok? && !IsMarked(ClassLine(ctx))
    requires TellsApart(ALLOWED_HEADINGS, norm) && PicksAttention(asks)
    ensures Passes(Render(Parse(payload, render).value, ctx), norm, asks)
  {
    var p := Parse(payload, render).value;
    ParsedIsNormal(payload, render);
    NormalPasses(p, ctx, norm, asks);
  }

  lemma NormalPasses(p: Summary, ctx: Context, norm: string -> string, asks: string -> bool)
    requires IsNormal(p) && !IsMarked(ClassLine(ctx))
    requires TellsApart(ALLOWED_HEADINGS, norm) && PicksAttention(asks)
    ensures Passes(Render(p, ctx), norm, asks)
  {
    TitlesOfRender(p, ctx);
    var at := ExpectedPicks(p);
    PicksAreInOrder(ExpectedHeadings(p), at, norm);
    PicksAreAllowed(ExpectedHeadings(p), at, norm);
    assert ALLOWED_HEADINGS[0] == TITLE;
    PicksHaveOneTitle(ALLOWED_HEADINGS, ExpectedHeadings(p), at, norm);
    AttentionIsShown(p, ctx, asks);
    SplitOfRender(p, ctx);
  }

  // The attention body the validator finds is exactly the list of attention items, never empty.
  lemma AttentionIsShown(p: Summary, ctx: Context, asks: string -> bool)
    requires IsNormal(p) && !IsMarked(ClassLine(ctx)) && PicksAttention(asks)
    ensures HasAttention(Lines(p, ctx), asks)
    ensures forall i: nat, j: nat :: IsBody(Lines(p, ctx), asks, i, j) ==>
      Strip(Join(Lines(p, ctx)[i + 1..j])) == Join(Bullets(p.attention))
  {
    var i, j, gap := AttentionLines(p, ctx, asks, |CORE_SECTION_ORDER|);
    AttentionText(p, gap);
    TheBody(Lines(p, ctx), asks, i, j, Join(Bullets(p.attention)));
  }

  lemma TheBody(lines: seq<string>, asks: string -> bool, i: nat, j: nat, text: string)
    requires IsBody(lines, asks, i, j) && Strip(Join(lines[i + 1..j])) == text && text != []
    ensures HasAttention(lines, asks)
    ensures forall i': nat, j': nat :: IsBody(lines, asks, i', j') ==> Strip(Join(lines[i' + 1..j'])) == text
  {
    forall i': nat, j': nat | IsBody(lines, asks, i', j') ensures Strip(Join(lines[i' + 1..j'])) == text {
      BodyIsUnique(lines, asks, i, j, i', j');
    }
  }
}
