/** chunk_attachment_text in app/attachment_processing.py. */
module Chunker {
  import opened Wrappers
  import opened Text

  const MIN_ATTACHMENT_CHUNK_CHARS := 256

  datatype Chunk = Chunk(text: string, start: nat, end: nat)

  // text.rfind(c, from, to)
  method RFind(text: string, c: char, from: nat, to: nat) returns (at: int)
    requires from <= to <= |text|
    ensures at == -1 || (from <= at < to && text[at] == c)
    ensures forall k :: from <= k < to && k > at ==> text[k] != c
  {
    var k := to;
    while k > from
      invariant from <= k <= to
      invariant forall j :: k <= j < to ==> text[j] != c
    {
      k := k - 1;
      if text[k] == c {
        return k;
      }
    }
    return -1;
  }

  predicate BlankBetween(text: string, from: nat, to: nat)
    requires from <= to <= |text|
  {
    forall k :: from <= k < to ==> IsSpace(text[k])
  }

  // The chunk is that part of the text, not empty and not too long.
  predicate IsChunk(text: string, size: nat, c: Chunk) {
    c.start < c.end <= |text| && c.end - c.start <= size && c.text == text[c.start..c.end]
  }

  // Only whitespace lies before chunk i, back to the chunk before it or to the start.
  predicate FollowsOn(text: string, chunks: seq<Chunk>, i: nat)
    requires i < |chunks|
  {
    var from := if i == 0 then 0 else chunks[i - 1].end;
    from <= chunks[i].start <= |text| && BlankBetween(text, from, chunks[i].start)
  }

  // Chunks in order without overlap, with only whitespace before, between and after them.
  predicate Tiles(text: string, size: nat, chunks: seq<Chunk>, cursor: nat) {
    && cursor <= |text|
    && (forall i :: 0 <= i < |chunks| ==> IsChunk(text, size, chunks[i]))
    && (forall i :: 0 <= i < |chunks| ==> FollowsOn(text, chunks, i))
    && var last := if chunks == [] then 0 else chunks[|chunks| - 1].end;
       last <= cursor && BlankBetween(text, last, cursor)
  }

  predicate IsBreakChar(c: char) {
    c == ' ' || c == '\n'
  }

  // A chunk that ends inside a word is as long as allowed and has no space or newline in its second
  // half.
  predicate CutsOnlyIfForced(text: string, size: nat, c: Chunk)
    requires c.end <= |text|
  {
    c.end < |text| && !IsSpace(text[c.end]) ==>
      c.end == c.start + size && forall k :: c.start + size / 2 < k < c.end ==> !IsBreakChar(text[k])
  }

  // The last break in the second half of what is allowed, or all that is allowed.
  ghost predicate IsPreferred(text: string, size: nat, cursor: nat, p: nat) {
    && cursor < p <= |text| && p - cursor <= size
    && if cursor + size >= |text| then p == |text|
       else if p == cursor + size then NoBreak(text, cursor + size / 2 + 1, p)
       else p > cursor + size / 2 && IsBreakChar(text[p]) && NoBreak(text, p + 1, cursor + size)
  }

  predicate NoBreak(text: string, from: nat, to: nat)
    requires to <= |text|
  {
    forall k :: from <= k < to ==> !IsBreakChar(text[k])
  }

  // The chunk ends there, without the whitespace before it; if there is nothing else it is as long as
  // allowed.
  ghost predicate EndsRight(text: string, size: nat, c: Chunk)
    requires c.start < c.end <= |text|
  {
    exists p :: IsPreferred(text, size, c.start, p)
      && if BlankBetween(text, c.start, p) then c.end == (if c.start + size < |text| then c.start + size else |text|)
         else c.end <= p && !IsSpace(text[c.end - 1]) && BlankBetween(text, c.end, p)
  }

  predicate IsTrimmedChunk(c: Chunk) {
    c.text != [] && IsTrimmed(c.text)
  }

  /* ---- Every character in its place ---- */

  lemma {:induction false} TilesInOrder(text: string, size: nat, chunks: seq<Chunk>, cursor: nat, i: nat, j: nat)
    requires Tiles(text, size, chunks, cursor) && i < j < |chunks|
    ensures chunks[i].end <= chunks[j].start
    decreases j
  {
    if i + 1 < j {
      TilesInOrder(text, size, chunks, cursor, i, j - 1);
      assert IsChunk(text, size, chunks[j - 1]);
    }
    assert FollowsOn(text, chunks, j);
  }

  lemma {:induction false} FindChunk(text: string, size: nat, chunks: seq<Chunk>, cursor: nat, p: nat, n: nat) returns (i: nat)
    requires Tiles(text, size, chunks, cursor) && n <= |chunks|
    requires p < (if n == 0 then 0 else chunks[n - 1].end) && !IsSpace(text[p])
    ensures i < n && chunks[i].start <= p < chunks[i].end
  {
    if chunks[n - 1].start <= p {
      i := n - 1;
    } else {
      assert FollowsOn(text, chunks, n - 1);
      i := FindChunk(text, size, chunks, cursor, p, n - 1);
    }
  }

  // Every character that is not whitespace is in exactly one chunk.
  lemma NothingIsLost(text: string, size: nat, chunks: seq<Chunk>, p: nat)
    requires Tiles(text, size, chunks, |text|) && p < |text| && !IsSpace(text[p])
    ensures exists i :: 0 <= i < |chunks| && chunks[i].start <= p < chunks[i].end
    ensures forall i, j :: 0 <= i < j < |chunks| ==> !(chunks[i].start <= p < chunks[i].end && chunks[j].start <= p < chunks[j].end)
  {
    var i := FindChunk(text, size, chunks, |text|, p, |chunks|);
    forall i, j | 0 <= i < j < |chunks| ensures chunks[i].end <= chunks[j].start {
      TilesInOrder(text, size, chunks, |text|, i, j);
    }
  }

  /* ---- The loop ---- */

  // k stretches of half a chunk
  function Stretches(k: nat, half: nat): nat {
    if k == 0 then 0 else Stretches(k - 1, half) + half
  }

  lemma {:induction false} StretchesAre(k: nat, half: nat)
    ensures Stretches(k, half) == k * half
  {
    if k > 0 {
      StretchesAre(k - 1, half);
      assert k * half == (k - 1) * half + half;
    }
  }

  // Where the chunk that starts at the cursor ends, before whitespace is taken off.
  method PreferredEnd(text: string, size: nat, cursor: nat) returns (end: nat)
    requires cursor < |text| && size > 0
    ensures IsPreferred(text, size, cursor, end)
    ensures end == |text| || end > cursor + size / 2
    ensures end < |text| && !IsSpace(text[end]) ==>
      end == cursor + size && forall k :: cursor + size / 2 < k < end ==> !IsBreakChar(text[k])
  {
    var hardEnd := if cursor + size < |text| then cursor + size else |text|;
    end := hardEnd;
    if hardEnd < |text| {
      var newline := RFind(text, '\n', cursor, hardEnd);
      var space := RFind(text, ' ', cursor, hardEnd);
      var preferred := if newline > space then newline else space;
      if preferred > cursor + size / 2 {
        end := preferred;
      }
    }
  }

  // The end after trailing whitespace is taken off, or the hard end if nothing is left.
  method TrimmedEnd(text: string, size: nat, cursor: nat, preferred: nat) returns (end: nat)
    requires cursor < preferred <= |text| && preferred - cursor <= size
    ensures cursor < end <= |text| && end - cursor <= size
    ensures !BlankBetween(text, cursor, preferred) ==>
      end <= preferred && !IsSpace(text[end - 1]) && BlankBetween(text, end, preferred)
    ensures BlankBetween(text, cursor, preferred) ==> end == if cursor + size < |text| then cursor + size else |text|
  {
    end := preferred;
    while end > cursor && IsSpace(text[end - 1])
      invariant cursor <= end <= preferred
      invariant BlankBetween(text, end, preferred)
    {
      end := end - 1;
    }
    if end <= cursor {
      end := if cursor + size < |text| then cursor + size else |text|;
    }
  }

  method SkipBlanks(text: string, from: nat) returns (cursor: nat)
    requires from <= |text|
    ensures from <= cursor <= |text| && BlankBetween(text, from, cursor)
    ensures cursor < |text| ==> !IsSpace(text[cursor])
  {
    cursor := from;
    while cursor < |text| && IsSpace(text[cursor])
      invariant from <= cursor <= |text| && BlankBetween(text, from, cursor)
    {
      cursor := cursor + 1;
    }
  }

  lemma TileMore(text: string, size: nat, chunks: seq<Chunk>, cursor: nat, c: Chunk, next: nat)
    requires Tiles(text, size, chunks, cursor) && IsChunk(text, size, c) && c.start == cursor
    requires c.end <= next <= |text| && BlankBetween(text, c.end, next)
    ensures Tiles(text, size, chunks + [c], next)
  {
    var all := chunks + [c];
    forall i | 0 <= i < |all|
      ensures IsChunk(text, size, all[i])
      ensures FollowsOn(text, all, i)
    {
      if i < |chunks| {
        assert FollowsOn(text, chunks, i);
      }
    }
  }

  predicate IsGoodChunk(text: string, size: nat, c: Chunk) {
    c.end <= |text| && IsTrimmedChunk(c) && CutsOnlyIfForced(text, size, c)
  }

  // The chunk at the cursor, and where the next one starts.
  ghost predicate IsNext(text: string, size: nat, cursor: nat, c: Chunk, next: nat)
    requires cursor < |text|
  {
    && IsChunk(text, size, c) && c.start == cursor && EndsRight(text, size, c)
    && c.end <= next <= |text| && BlankBetween(text, c.end, next)
    && (next < |text| ==> !IsSpace(text[next]) && cursor + size / 2 + 1 <= next)
    && (!IsSpace(text[cursor]) ==> IsGoodChunk(text, size, c))
  }

  // One round of the outer loop.
  method NextChunk(text: string, size: nat, cursor: nat) returns (c: Chunk, next: nat)
    requires cursor < |text| && size > 0
    ensures IsNext(text, size, cursor, c, next)
  {
    var preferred := PreferredEnd(text, size, cursor);
    var end := TrimmedEnd(text, size, cursor, preferred);
    next := SkipBlanks(text, end);
    c := Chunk(text[cursor..end], cursor, end);
  }

  lemma CountBound(k: nat, half: nat, n: nat)
    requires half > 0 && Stretches(k, half) < n
    ensures k <= n / half
  {
    StretchesAre(k, half);
    var q := n / half;
    assert n == q * half + n % half;
    assert (q + 1) * half == q * half + half;
    Grows(q + 1, k, half);
  }

  lemma Grows(a: nat, b: nat, c: nat)
    ensures a <= b ==> a * c <= b * c
  {
  }

  // All chunks end where they should, and all but one at the start of the text begin with text and
  // are good.
  ghost predicate AllGood(text: string, size: nat, chunks: seq<Chunk>) {
    && (chunks != [] ==> chunks[0].start == 0)
    && (forall c :: c in chunks ==> c.start < c.end <= |text| && EndsRight(text, size, c))
    && (forall c :: c in chunks && IsSpace(text[c.start]) ==> c.start == 0)
    && forall c :: c in chunks && !IsSpace(text[c.start]) ==> IsGoodChunk(text, size, c)
  }

  lemma GoodMore(text: string, size: nat, chunks: seq<Chunk>, c: Chunk)
    requires AllGood(text, size, chunks) && c.start < c.end <= |text| && EndsRight(text, size, c)
    requires if IsSpace(text[c.start]) then c.start == 0 else IsGoodChunk(text, size, c)
    requires chunks == [] ==> c.start == 0
    ensures AllGood(text, size, chunks + [c])
  {
  }

  // What the outer loop knows.
  ghost predicate SoFar(text: string, size: nat, chunks: seq<Chunk>, cursor: nat) {
    && Tiles(text, size, chunks, cursor) && AllGood(text, size, chunks)
    && (chunks == [] ==> cursor == 0) && (0 < cursor < |text| ==> !IsSpace(text[cursor]))
    && (cursor < |text| ==> Stretches(|chunks|, size / 2 + 1) <= cursor)
    && (chunks == [] || Stretches(|chunks| - 1, size / 2 + 1) < |text|)
  }

  lemma OneMore(text: string, size: nat, chunks: seq<Chunk>, cursor: nat, c: Chunk, next: nat)
    requires cursor < |text| && SoFar(text, size, chunks, cursor) && IsNext(text, size, cursor, c, next)
    ensures SoFar(text, size, chunks + [c], next) && next > cursor
  {
    TileMore(text, size, chunks, cursor, c, next);
    GoodMore(text, size, chunks, c);
  }

  // The outer loop.
  method ChunkAll(text: string, size: nat) returns (chunks: seq<Chunk>)
    requires size > 0
    ensures Tiles(text, size, chunks, |text|)
    ensures chunks == [] || Stretches(|chunks| - 1, size / 2 + 1) < |text|
    ensures AllGood(text, size, chunks) && (chunks == [] ==> text == [])
  {
    chunks := [];
    var cursor: nat := 0;
    while cursor < |text|
      invariant SoFar(text, size, chunks, cursor)
      decreases |text| - cursor
    {
      var c, next := NextChunk(text, size, cursor);
      OneMore(text, size, chunks, cursor, c, next);
      chunks := chunks + [c];
      cursor := next;
    }
  }

  /* ---- The only chunks ---- */

  lemma OnePreferred(text: string, size: nat, cursor: nat, p: nat, q: nat)
    requires IsPreferred(text, size, cursor, p) && IsPreferred(text, size, cursor, q)
    ensures p == q
  {
  }

  lemma OneEnd(text: string, size: nat, a: Chunk, b: Chunk)
    requires a.start == b.start && IsChunk(text, size, a) && IsChunk(text, size, b)
    requires EndsRight(text, size, a) && EndsRight(text, size, b)
    ensures a == b
  {
    var p :| IsPreferred(text, size, a.start, p)
      && if BlankBetween(text, a.start, p) then a.end == (if a.start + size < |text| then a.start + size else |text|)
         else a.end <= p && !IsSpace(text[a.end - 1]) && BlankBetween(text, a.end, p);
    var q :| IsPreferred(text, size, b.start, q)
      && if BlankBetween(text, b.start, q) then b.end == (if b.start + size < |text| then b.start + size else |text|)
         else b.end <= q && !IsSpace(text[b.end - 1]) && BlankBetween(text, b.end, q);
    OnePreferred(text, size, a.start, p, q);
  }

  // After the same chunk the next one starts at the next character that is not whitespace.
  lemma OneStart(text: string, size: nat, a: seq<Chunk>, b: seq<Chunk>, i: nat)
    requires Tiles(text, size, a, |text|) && Tiles(text, size, b, |text|) && AllGood(text, size, a) && AllGood(text, size, b)
    requires i < |a| && i < |b| && (i > 0 ==> a[i - 1] == b[i - 1])
    ensures a[i].start == b[i].start
  {
    if i > 0 {
      assert FollowsOn(text, a, i) && FollowsOn(text, b, i) && IsChunk(text, size, a[i - 1]);
      assert a[i] in a && b[i] in b;
    }
  }

  lemma OneChunk(text: string, size: nat, a: seq<Chunk>, b: seq<Chunk>, i: nat)
    requires Tiles(text, size, a, |text|) && Tiles(text, size, b, |text|) && AllGood(text, size, a) && AllGood(text, size, b)
    requires i < |a| && i < |b| && (i > 0 ==> a[i - 1] == b[i - 1])
    ensures a[i] == b[i]
  {
    OneStart(text, size, a, b, i);
    assert a[i] in a && b[i] in b;
    OneEnd(text, size, a[i], b[i]);
  }

  lemma CommonPrefix(a: seq<Chunk>, b: seq<Chunk>) returns (n: nat)
    ensures n <= |a| && n <= |b| && forall i :: 0 <= i < n ==> a[i] == b[i]
    ensures n < |a| && n < |b| ==> a[n] != b[n]
  {
    n := 0;
    while n < |a| && n < |b| && a[n] == b[n]
      invariant n <= |a| && n <= |b| && forall i :: 0 <= i < n ==> a[i] == b[i]
    {
      n := n + 1;
    }
  }

  // Behind the chunks of a there is only whitespace, with which no later chunk starts.
  lemma StartsLater(text: string, size: nat, a: seq<Chunk>, b: seq<Chunk>)
    requires Tiles(text, size, b, |text|) && AllGood(text, size, b) && a <= b && |a| < |b|
    ensures b[|a|].start < |text|
    ensures a != [] ==> a[|a| - 1].end <= b[|a|].start && !IsSpace(text[b[|a|].start])
  {
    assert FollowsOn(text, b, |a|) && IsChunk(text, size, b[|a|]) && b[|a|] in b;
    if a != [] {
      assert b[|a| - 1] == a[|a| - 1] && IsChunk(text, size, b[|a| - 1]);
    }
  }

  lemma NoneAfter(text: string, size: nat, a: seq<Chunk>, b: seq<Chunk>)
    requires Tiles(text, size, a, |text|) && Tiles(text, size, b, |text|) && AllGood(text, size, b) && a <= b && (a == [] ==> text == [])
    ensures |a| == |b|
  {
    if |a| < |b| {
      StartsLater(text, size, a, b);
      assert false;
    }
  }

  // What is said of the chunks leaves one list only.
  lemma ChunksAreOne(text: string, size: nat, a: seq<Chunk>, b: seq<Chunk>)
    requires Tiles(text, size, a, |text|) && AllGood(text, size, a) && (a == [] ==> text == [])
    requires Tiles(text, size, b, |text|) && AllGood(text, size, b) && (b == [] ==> text == [])
    ensures a == b
  {
    var n := CommonPrefix(a, b);
    if n < |a| && n < |b| {
      OneChunk(text, size, a, b, n);
      assert false;
    }
    if |a| <= |b| {
      NoneAfter(text, size, a, b);
    } else {
      NoneAfter(text, size, b, a);
    }
  }

  // The chunks tile the text; there is at most one more than the text has stretches of half a chunk;
  // each ends at the last break in its second half if there is one; and but for the first of a text
  // that starts with whitespace all are trimmed and cut words only when forced.
  method ChunkText(text: string, size: nat) returns (r: Result<seq<Chunk>>)
    ensures r.Err? <==> size < 256
    ensures r.Ok? ==> Tiles(text, size, r.value, |text|)
    ensures r.Ok? ==> |r.value| <= |text| / (size / 2 + 1) + 1
    ensures r.Ok? ==> AllGood(text, size, r.value) && (r.value == [] ==> text == [])
  {
    if size < MIN_ATTACHMENT_CHUNK_CHARS {
      return Err("chunk_chars is too small");
    }
    var chunks := ChunkAll(text, size);
    CountOfChunks(|chunks|, size / 2 + 1, |text|);
    return Ok(chunks);
  }

  lemma CountOfChunks(k: nat, half: nat, n: nat)
    requires half > 0 && (k == 0 || Stretches(k - 1, half) < n)
    ensures k <= n / half + 1
  {
    if k != 0 {
      CountBound(k - 1, half, n);
    }
  }
}
