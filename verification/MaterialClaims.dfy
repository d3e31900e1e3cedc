/** The material claims of a structured summary, the catalogue of citable sources and the validator
    that compares them (app/claim_evidence.py). */
module MaterialClaims {
  import opened Wrappers
  import opened Text
  import opened SummaryOutput

  /* ---- Evidence references ---- */

  predicate IsHexDigit(c: char) {
    '0' <= c <= '9' || 'a' <= c <= 'f'
  }

  predicate IsHex(s: string, n: nat) {
    |s| == n && forall i :: 0 <= i < n ==> IsHexDigit(s[i])
  }

  // ^[pma]-[0-9a-f]{32}$
  predicate IsRef(ref: string) {
    |ref| == 34 && (ref[0] == 'p' || ref[0] == 'm' || ref[0] == 'a') && ref[1] == '-' && IsHex(ref[2..], 32)
  }

  // A UUID by its 32 hexadecimal digits.
  function ProcessRef(version: string): string { "p-" + version }
  function MovementRef(step: string): string { "m-" + step }
  function AttachmentRef(chunk: string): string { "a-" + chunk }

  lemma RefsOfUuids(uuid: string)
    requires IsHex(uuid, 32)
    ensures IsRef(ProcessRef(uuid)) && IsRef(MovementRef(uuid)) && IsRef(AttachmentRef(uuid))
  {
    assert ProcessRef(uuid)[2..] == uuid && MovementRef(uuid)[2..] == uuid && AttachmentRef(uuid)[2..] == uuid;
  }

  // A letter for the kind, a dash and thirty-two small hexadecimal digits.
  lemma RefMeans(ref: string)
    ensures IsRef(ref) <==>
      && |ref| == 34 && ref[0] in "pma" && ref[1] == '-'
      && forall i :: 2 <= i < 34 ==> ref[i] in "0123456789abcdef"
  {
    if |ref| == 34 {
      forall i | 2 <= i < 34 ensures ref[2..][i - 2] == ref[i] && (IsHexDigit(ref[i]) <==> ref[i] in "0123456789abcdef") {
        HexDigitMeans(ref[i]);
      }
      assert forall i :: 0 <= i < 32 ==> ref[2..][i] == ref[i + 2];
    }
  }

  lemma HexDigitMeans(c: char)
    ensures IsHexDigit(c) <==> c in "0123456789abcdef"
  {
    var all := "0123456789abcdef";
    assert all[0] == '0' && all[1] == '1' && all[2] == '2' && all[3] == '3' && all[4] == '4' && all[5] == '5' && all[6] == '6';
    assert all[7] == '7' && all[8] == '8' && all[9] == '9' && all[10] == 'a' && all[11] == 'b' && all[12] == 'c';
    assert all[13] == 'd' && all[14] == 'e' && all[15] == 'f';
  }

  /* ---- Claim identifiers ---- */

  const MATERIAL_FIELDS: seq<string> :=
    ["timeline", "attention", "decisions", "deadlines", "related_processes", "attachments"]

  function Digit(n: nat): char
    requires n < 10
  {
    ('0' as int + n) as char
  }

  function Decimal(n: nat): string {
    if n < 10 then [Digit(n)] else Decimal(n / 10) + [Digit(n % 10)]
  }

  lemma {:induction false} DecimalDigits(n: nat)
    ensures Decimal(n) != [] && forall i :: 0 <= i < |Decimal(n)| ==> '0' <= Decimal(n)[i] <= '9'
  {
    if n >= 10 {
      DecimalDigits(n / 10);
    }
  }

  lemma {:induction false} DecimalInjective(a: nat, b: nat)
    requires Decimal(a) == Decimal(b)
    ensures a == b
  {
    var n := |Decimal(a)| - 1;
    DecimalDigits(a / 10);
    DecimalDigits(b / 10);
    assert Decimal(a)[n] == Digit(a % 10) && Decimal(b)[n] == Digit(b % 10);
    if a >= 10 && b >= 10 {
      assert Decimal(a)[..n] == Decimal(a / 10) && Decimal(b)[..n] == Decimal(b / 10);
      DecimalInjective(a / 10, b / 10);
    }
  }

  function Key(field: string, index: nat): string {
    field + ":" + Decimal(index)
  }

  predicate HasColon(s: string) {
    ':' in s
  }

  lemma KeysDiffer(f: string, i: nat, g: string, j: nat)
    requires !HasColon(f) && !HasColon(g) && Key(f, i) == Key(g, j)
    ensures f == g && i == j
  {
    var key := Key(f, i);
    assert key[|f|] == ':' && key[|g|] == ':';
    assert key[..|f|] == f && key[..|g|] == g;
    assert forall k :: 0 <= k < |f| ==> key[k] == f[k];
    assert forall k :: 0 <= k < |g| ==> key[k] == g[k];
    assert |f| == |g|;
    assert key[|f| + 1..] == Decimal(i) && key[|g| + 1..] == Decimal(j);
    DecimalInjective(i, j);
  }

  // (?:synthesis|current_status|(?:timeline|...|attachments):[0-9]+), matched in full
  predicate IsClaimId(id: string) {
    || id == "synthesis" || id == "current_status"
    || exists f :: 0 <= f < |MATERIAL_FIELDS| && IsKeyOf(MATERIAL_FIELDS[f], id)
  }

  predicate IsKeyOf(field: string, id: string) {
    && |id| > |field| + 1 && id[..|field|] == field && id[|field|] == ':'
    && forall i :: |field| < i < |id| ==> '0' <= id[i] <= '9'
  }

  lemma KeyIsKeyOf(field: string, index: nat)
    ensures IsKeyOf(field, Key(field, index))
  {
    DecimalDigits(index);
    var key := Key(field, index);
    forall i | |field| < i < |key| ensures '0' <= key[i] <= '9' {
      assert key[i] == Decimal(index)[i - |field| - 1];
    }
  }

  // One of the two prose fields, or a list and a number.
  lemma ClaimIdMeans(id: string)
    ensures IsClaimId(id) <==>
      || id == "synthesis" || id == "current_status"
      || exists field, digits: string :: IsNumbered(field, digits, id)
  {
    forall f | 0 <= f < |MATERIAL_FIELDS| && IsKeyOf(MATERIAL_FIELDS[f], id)
      ensures IsNumbered(MATERIAL_FIELDS[f], id[|MATERIAL_FIELDS[f]| + 1..], id)
    {
      KeyOfMeans(MATERIAL_FIELDS[f], id);
    }
    forall field, digits: string | IsNumbered(field, digits, id) ensures IsClaimId(id) {
      var f :| 0 <= f < |MATERIAL_FIELDS| && MATERIAL_FIELDS[f] == field;
      NumberedIsKey(field, digits, id);
    }
  }

  predicate IsNumbered(field: string, digits: string, id: string) {
    && field in ["timeline", "attention", "decisions", "deadlines", "related_processes", "attachments"]
    && id == field + ":" + digits && digits != [] && forall i :: 0 <= i < |digits| ==> '0' <= digits[i] <= '9'
  }

  lemma KeyOfMeans(field: string, id: string)
    requires IsKeyOf(field, id)
    ensures var digits := id[|field| + 1..];
      id == field + ":" + digits && digits != [] && forall i :: 0 <= i < |digits| ==> '0' <= digits[i] <= '9'
  {
    assert id == id[..|field|] + [id[|field|]] + id[|field| + 1..];
  }

  lemma NumberedIsKey(field: string, digits: string, id: string)
    requires id == field + ":" + digits && digits != [] && forall i :: 0 <= i < |digits| ==> '0' <= digits[i] <= '9'
    ensures IsKeyOf(field, id)
  {
    forall i | |field| < i < |id| ensures '0' <= id[i] <= '9' {
      assert id[i] == digits[i - |field| - 1];
    }
  }

  /* ---- expected_material_claims ---- */

  type Slot = (string, string)

  function Fields(p: Summary): seq<(string, seq<string>)> {
    [(MATERIAL_FIELDS[0], p.timeline), (MATERIAL_FIELDS[1], p.attention), (MATERIAL_FIELDS[2], p.decisions),
     (MATERIAL_FIELDS[3], p.deadlines), (MATERIAL_FIELDS[4], p.related), (MATERIAL_FIELDS[5], p.attachments)]
  }

  function FieldSlots(field: string, items: seq<string>): seq<Slot> {
    seq(|items|, i requires 0 <= i < |items| => (Key(field, i), items[i]))
  }

  function ListSlots(fields: seq<(string, seq<string>)>): seq<Slot> {
    if fields == [] then []
    else ListSlots(fields[..|fields| - 1]) + FieldSlots(fields[|fields| - 1].0, fields[|fields| - 1].1)
  }

  // The material fields of a summary: an identifier and the text it must carry.
  function Slots(p: Summary): seq<Slot> {
    [("synthesis", p.synthesis), ("current_status", p.status)] + ListSlots(Fields(p))
  }

  ghost predicate DistinctIds(slots: seq<Slot>) {
    forall a, b :: 0 <= a < b < |slots| ==> slots[a].0 != slots[b].0
  }

  ghost predicate GoodFields(fields: seq<(string, seq<string>)>) {
    && (forall f :: 0 <= f < |fields| ==> !HasColon(fields[f].0))
    && forall f, g :: 0 <= f < g < |fields| ==> fields[f].0 != fields[g].0
  }

  lemma {:induction false} SlotShape(fields: seq<(string, seq<string>)>, k: nat) returns (f: nat, i: nat)
    requires k < |ListSlots(fields)|
    ensures f < |fields| && i < |fields[f].1| && ListSlots(fields)[k] == (Key(fields[f].0, i), fields[f].1[i])
  {
    var n := |fields| - 1;
    var front := ListSlots(fields[..n]);
    if k < |front| {
      f, i := SlotShape(fields[..n], k);
    } else {
      f, i := n, k - |front|;
    }
  }

  lemma {:induction false} ListSlotsAreDistinct(fields: seq<(string, seq<string>)>)
    requires GoodFields(fields)
    ensures DistinctIds(ListSlots(fields))
  {
    if fields != [] {
      var n := |fields| - 1;
      ListSlotsAreDistinct(fields[..n]);
      var front, slots := ListSlots(fields[..n]), ListSlots(fields);
      forall a, b | 0 <= a < b < |slots| ensures slots[a].0 != slots[b].0 {
        if b >= |front| {
          var j := b - |front|;
          if a < |front| {
            var f, i := SlotShape(fields[..n], a);
            assert fields[f].0 != fields[n].0;
            if slots[a].0 == slots[b].0 {
              KeysDiffer(fields[f].0, i, fields[n].0, j);
            }
          } else if slots[a].0 == slots[b].0 {
            KeysDiffer(fields[n].0, a - |front|, fields[n].0, j);
          }
        }
      }
    }
  }

  lemma MaterialFieldsAreGood(p: Summary)
    ensures GoodFields(Fields(p))
  {
  }

  // No two material fields share an identifier.
  lemma SlotsAreDistinct(p: Summary)
    ensures DistinctIds(Slots(p))
  {
    var fields := Fields(p);
    MaterialFieldsAreGood(p);
    ListSlotsAreDistinct(fields);
    forall k | 0 <= k < |ListSlots(fields)| ensures HasColon(ListSlots(fields)[k].0) {
      var f, i := SlotShape(fields, k);
      assert Key(fields[f].0, i)[|fields[f].0|] == ':';
    }
    assert !HasColon("synthesis") && !HasColon("current_status");
  }

  lemma SlotIsClaimId(p: Summary, k: nat)
    requires k < |Slots(p)|
    ensures IsClaimId(Slots(p)[k].0)
  {
    if k >= 2 {
      var f, i := SlotShape(Fields(p), k - 2);
      KeyIsKeyOf(Fields(p)[f].0, i);
      assert Fields(p)[f].0 == MATERIAL_FIELDS[f];
    }
  }

  function ExpectedOf(slots: seq<Slot>): map<string, string> {
    if slots == [] then map[]
    else ExpectedOf(slots[..|slots| - 1])[slots[|slots| - 1].0 := slots[|slots| - 1].1]
  }

  function Expected(p: Summary): map<string, string> {
    ExpectedOf(Slots(p))
  }

  lemma {:induction false} ExpectedHasIds(slots: seq<Slot>)
    ensures forall id :: id in ExpectedOf(slots) <==> exists k :: 0 <= k < |slots| && slots[k].0 == id
  {
    if slots != [] {
      var n := |slots| - 1;
      var front := slots[..n];
      ExpectedHasIds(front);
      forall id | id in ExpectedOf(slots) ensures exists k :: 0 <= k < |slots| && slots[k].0 == id {
        if id in ExpectedOf(front) {
          var k :| 0 <= k < |front| && front[k].0 == id;
          assert slots[k].0 == id;
        } else {
          assert slots[n].0 == id;
        }
      }
      forall k | 0 <= k < |slots| ensures slots[k].0 in ExpectedOf(slots) {
        if k < n {
          assert front[k].0 == slots[k].0;
        }
      }
    }
  }

  lemma {:induction false} ExpectedHasTexts(slots: seq<Slot>)
    requires DistinctIds(slots)
    ensures forall k :: 0 <= k < |slots| ==> slots[k].0 in ExpectedOf(slots) && ExpectedOf(slots)[slots[k].0] == slots[k].1
  {
    if slots != [] {
      var n := |slots| - 1;
      ExpectedHasTexts(slots[..n]);
      forall k | 0 <= k < |slots|
        ensures slots[k].0 in ExpectedOf(slots) && ExpectedOf(slots)[slots[k].0] == slots[k].1
      {
        if k < n {
          assert slots[..n][k] == slots[k] && slots[k].0 != slots[n].0;
        }
      }
    }
  }

  // Every material field has its own identifier and keeps its text under it.
  lemma ExpectedIsSlots(p: Summary)
    ensures forall id :: id in Expected(p) <==> exists k :: 0 <= k < |Slots(p)| && Slots(p)[k].0 == id
    ensures forall k :: 0 <= k < |Slots(p)| ==> Slots(p)[k].0 in Expected(p) && Expected(p)[Slots(p)[k].0] == Slots(p)[k].1
    ensures forall id :: id in Expected(p) ==> IsClaimId(id)
  {
    SlotsAreDistinct(p);
    ExpectedHasIds(Slots(p));
    ExpectedHasTexts(Slots(p));
    forall id | id in Expected(p) ensures IsClaimId(id) {
      var k :| 0 <= k < |Slots(p)| && Slots(p)[k].0 == id;
      SlotIsClaimId(p, k);
    }
  }

  /* ---- The eight material fields, one by one ---- */

  // An item of a list, under the name of the field and its position.
  predicate IsListed(field: string, items: seq<string>, id: string, text: string) {
    exists i :: 0 <= i < |items| && id == field + ":" + Decimal(i) && text == items[i]
  }

  predicate IsField(p: Summary, id: string, text: string) {
    || (id == "synthesis" && text == p.synthesis)
    || (id == "current_status" && text == p.status)
    || IsListed("timeline", p.timeline, id, text)
    || IsListed("attention", p.attention, id, text)
    || IsListed("decisions", p.decisions, id, text)
    || IsListed("deadlines", p.deadlines, id, text)
    || IsListed("related_processes", p.related, id, text)
    || IsListed("attachments", p.attachments, id, text)
  }

  predicate HasSlot(slots: seq<Slot>, id: string, text: string) {
    exists k :: 0 <= k < |slots| && slots[k] == (id, text)
  }

  lemma SlotsTogether(a: seq<Slot>, b: seq<Slot>, id: string, text: string)
    ensures HasSlot(a + b, id, text) <==> HasSlot(a, id, text) || HasSlot(b, id, text)
  {
    if HasSlot(a, id, text) {
      var k :| 0 <= k < |a| && a[k] == (id, text);
      assert (a + b)[k] == (id, text);
    }
    if HasSlot(b, id, text) {
      var k :| 0 <= k < |b| && b[k] == (id, text);
      assert (a + b)[|a| + k] == (id, text);
    }
  }

  lemma FieldSlotsMean(field: string, items: seq<string>, id: string, text: string)
    ensures HasSlot(FieldSlots(field, items), id, text) <==> IsListed(field, items, id, text)
  {
    var slots := FieldSlots(field, items);
    forall i | 0 <= i < |items| && id == field + ":" + Decimal(i) && text == items[i] ensures HasSlot(slots, id, text) {
      assert slots[i] == (id, text);
    }
  }

  // A list of fields contributes the items of its fields.
  lemma {:induction false} ListSlotsMean(fields: seq<(string, seq<string>)>, id: string, text: string)
    ensures HasSlot(ListSlots(fields), id, text) <==>
      exists f :: 0 <= f < |fields| && IsListed(fields[f].0, fields[f].1, id, text)
  {
    if fields != [] {
      var n := |fields| - 1;
      ListSlotsMean(fields[..n], id, text);
      SlotsTogether(ListSlots(fields[..n]), FieldSlots(fields[n].0, fields[n].1), id, text);
      FieldSlotsMean(fields[n].0, fields[n].1, id, text);
      assert forall f :: 0 <= f < n ==> fields[..n][f] == fields[f];
    }
  }

  // The six lists, in the order in which they are gone through.
  lemma FieldsMean(p: Summary, id: string, text: string)
    ensures (exists f :: 0 <= f < |Fields(p)| && IsListed(Fields(p)[f].0, Fields(p)[f].1, id, text)) <==>
      || IsListed("timeline", p.timeline, id, text) || IsListed("attention", p.attention, id, text)
      || IsListed("decisions", p.decisions, id, text) || IsListed("deadlines", p.deadlines, id, text)
      || IsListed("related_processes", p.related, id, text) || IsListed("attachments", p.attachments, id, text)
  {
    var fields := Fields(p);
    assert |fields| == 6;
    assert fields[0] == ("timeline", p.timeline) && fields[1] == ("attention", p.attention);
    assert fields[2] == ("decisions", p.decisions) && fields[3] == ("deadlines", p.deadlines);
    assert fields[4] == ("related_processes", p.related) && fields[5] == ("attachments", p.attachments);
  }

  // The dictionary holds exactly the eight fields of the summary, each item with its own text.
  lemma ExpectedIsFields(p: Summary, id: string, text: string)
    ensures id in Expected(p) && Expected(p)[id] == text <==> IsField(p, id, text)
  {
    ExpectedIsSlots(p);
    var prose := [("synthesis", p.synthesis), ("current_status", p.status)];
    SlotsTogether(prose, ListSlots(Fields(p)), id, text);
    ListSlotsMean(Fields(p), id, text);
    FieldsMean(p, id, text);
    assert prose[0] == ("synthesis", p.synthesis) && prose[1] == ("current_status", p.status);
  }

  /* ---- The catalogue ---- */

  datatype Kind = Process | Movement | Attachment

  // What a reference stands for; step and chunk are UUIDs.
  datatype Source = Source(kind: Kind, step: Option<string>, chunk: Option<string>)

  // A source the context was built from: its reference and its UUID.
  datatype Cited = Cited(ref: string, uuid: string)

  datatype Selection = Selection(processRef: string, steps: seq<Cited>, chunks: seq<Cited>)

  // References as the context builder makes them, for a version.
  ghost predicate IsBuilt(sel: Selection, version: string) {
    && IsHex(version, 32) && sel.processRef == ProcessRef(version)
    && (forall c :: c in sel.steps ==> IsHex(c.uuid, 32) && c.ref == MovementRef(c.uuid))
    && (forall c :: c in sel.chunks ==> IsHex(c.uuid, 32) && c.ref == AttachmentRef(c.uuid))
  }

  // Adding sources of one kind to a catalogue; a later entry replaces an earlier one.
  function WithSources(catalog: map<string, Source>, cited: seq<Cited>, source: string -> Source): map<string, Source> {
    if cited == [] then catalog
    else
      var last := cited[|cited| - 1];
      var before := WithSources(catalog, cited[..|cited| - 1], source);
      if IsRef(last.ref) then before[last.ref := source(last.uuid)] else before
  }

  function MovementSource(uuid: string): Source { Source(Movement, Some(uuid), None) }
  function AttachmentSource(uuid: string): Source { Source(Attachment, None, Some(uuid)) }

  function Catalog(sel: Selection): map<string, Source> {
    var process := if IsRef(sel.processRef) then map[sel.processRef := Source(Process, None, None)] else map[];
    WithSources(WithSources(process, sel.steps, MovementSource), sel.chunks, AttachmentSource)
  }

  method AddSources(catalog: map<string, Source>, cited: seq<Cited>, source: string -> Source) returns (all: map<string, Source>)
    ensures all == WithSources(catalog, cited, source)
  {
    all := catalog;
    var i := 0;
    while i < |cited|
      invariant 0 <= i <= |cited|
      invariant all == WithSources(catalog, cited[..i], source)
    {
      assert cited[..i + 1][..i] == cited[..i];
      if IsRef(cited[i].ref) {
        all := all[cited[i].ref := source(cited[i].uuid)];
      }
      i := i + 1;
    }
    assert cited[..i] == cited;
  }

  method EvidenceCatalog(sel: Selection) returns (catalog: map<string, Source>)
    ensures catalog == Catalog(sel)
  {
    catalog := map[];
    if IsRef(sel.processRef) {
      catalog := catalog[sel.processRef := Source(Process, None, None)];
    }
    catalog := AddSources(catalog, sel.steps, MovementSource);
    catalog := AddSources(catalog, sel.chunks, AttachmentSource);
  }

  lemma {:induction false} WithSourcesMeans(catalog: map<string, Source>, cited: seq<Cited>, source: string -> Source)
    ensures var all := WithSources(catalog, cited, source);
      && (forall ref :: ref in catalog ==> ref in all)
      && (forall c :: c in cited && IsRef(c.ref) ==> c.ref in all)
      && (forall ref :: ref in all ==>
        (ref in catalog && all[ref] == catalog[ref]) || exists c :: c in cited && c.ref == ref && IsRef(ref) && all[ref] == source(c.uuid))
  {
    if cited != [] {
      var last, front := cited[|cited| - 1], cited[..|cited| - 1];
      WithSourcesMeans(catalog, front, source);
      var all, before := WithSources(catalog, cited, source), WithSources(catalog, front, source);
      forall ref | ref in all
        ensures (ref in catalog && all[ref] == catalog[ref])
          || exists c :: c in cited && c.ref == ref && IsRef(ref) && all[ref] == source(c.uuid)
      {
        if ref == last.ref && IsRef(ref) {
          assert last in cited;
        } else if !(ref in catalog && all[ref] == catalog[ref]) {
          var c :| c in front && c.ref == ref && IsRef(ref) && before[ref] == source(c.uuid);
          assert c in cited;
        }
      }
    }
  }

  // The source a reference of this kind must stand for, given the UUID it is made of.
  ghost predicate Stands(sel: Selection, version: string, ref: string, source: Source) {
    match source.kind
    case Process => source == Source(Process, None, None) && ref == ProcessRef(version)
    case Movement => exists c :: c in sel.steps && source == MovementSource(c.uuid) && ref == MovementRef(c.uuid)
    case Attachment => exists c :: c in sel.chunks && source == AttachmentSource(c.uuid) && ref == AttachmentRef(c.uuid)
  }

  // Exactly the references of the selection are citable, and each stands for the process version,
  // step or chunk it names.
  lemma CatalogMeans(sel: Selection, version: string)
    requires IsBuilt(sel, version)
    ensures forall ref :: ref in Catalog(sel) ==> IsRef(ref) && Stands(sel, version, ref, Catalog(sel)[ref])
    ensures ProcessRef(version) in Catalog(sel)
    ensures forall c :: c in sel.steps + sel.chunks ==> c.ref in Catalog(sel)
  {
    RefsOfUuids(version);
    var process := map[sel.processRef := Source(Process, None, None)];
    var moved := WithSources(process, sel.steps, MovementSource);
    WithSourcesMeans(process, sel.steps, MovementSource);
    WithSourcesMeans(moved, sel.chunks, AttachmentSource);
    forall c | c in sel.steps + sel.chunks ensures c.ref in Catalog(sel) {
      RefsOfUuids(c.uuid);
    }
    forall ref | ref in Catalog(sel) ensures IsRef(ref) && Stands(sel, version, ref, Catalog(sel)[ref]) {
      var source := Catalog(sel)[ref];
      if ref in moved && moved[ref] == source {
      } else {
        var c :| c in sel.chunks && c.ref == ref && IsRef(ref) && source == AttachmentSource(c.uuid);
      }
    }
  }

  lemma ExpectedSnoc(slots: seq<Slot>, slot: Slot)
    ensures ExpectedOf(slots + [slot]) == ExpectedOf(slots)[slot.0 := slot.1]
  {
    assert (slots + [slot])[..|slots|] == slots;
  }

  method ExpectedMaterialClaims(p: Summary) returns (expected: map<string, string>)
    ensures expected == Expected(p)
  {
    var prose := [("synthesis", p.synthesis), ("current_status", p.status)];
    expected := map["synthesis" := p.synthesis];
    expected := expected["current_status" := p.status];
    ExpectedSnoc([], prose[0]);
    ExpectedSnoc([prose[0]], prose[1]);
    assert [] + [prose[0]] == [prose[0]] && [prose[0]] + [prose[1]] == prose;
    expected := AddFields(expected, prose, Fields(p));
  }

  method AddFields(given: map<string, string>, slots: seq<Slot>, fields: seq<(string, seq<string>)>)
    returns (expected: map<string, string>)
    requires given == ExpectedOf(slots)
    ensures expected == ExpectedOf(slots + ListSlots(fields))
  {
    expected := given;
    var f := 0;
    assert slots + [] == slots;
    while f < |fields|
      invariant 0 <= f <= |fields|
      invariant expected == ExpectedOf(slots + ListSlots(fields[..f]))
    {
      expected := AddItems(expected, slots + ListSlots(fields[..f]), fields[f].0, fields[f].1);
      assert fields[..f + 1][..f] == fields[..f];
      assert slots + ListSlots(fields[..f]) + FieldSlots(fields[f].0, fields[f].1) == slots + ListSlots(fields[..f + 1]);
      f := f + 1;
    }
    assert fields[..f] == fields;
  }

  // The inner loop, over the items of one field.
  method AddItems(given: map<string, string>, slots: seq<Slot>, field: string, items: seq<string>)
    returns (expected: map<string, string>)
    requires given == ExpectedOf(slots)
    ensures expected == ExpectedOf(slots + FieldSlots(field, items))
  {
    expected := given;
    ghost var all := FieldSlots(field, items);
    var i := 0;
    assert slots + [] == slots;
    while i < |items|
      invariant 0 <= i <= |items|
      invariant expected == ExpectedOf(slots + all[..i])
    {
      expected := expected[Key(field, i) := items[i]];
      ExpectedSnoc(slots + all[..i], all[i]);
      assert slots + all[..i + 1] == slots + all[..i] + [all[i]];
      i := i + 1;
    }
    assert all[..i] == all;
  }

  /* ---- validate_claim_evidence ---- */

  datatype Class =
    | SynthesisClass | StatusClass | EventClass | AttentionClass | DecisionClass | DeadlineClass
    | RelatedClass | AttachmentClass

  function Prefix(id: string): string {
    if id == [] || id[0] == ':' then [] else [id[0]] + Prefix(id[1..])
  }

  // _claim_class
  function ClassOf(id: string): Option<Class> {
    var prefix := Prefix(id);
    if prefix == "synthesis" then Some(SynthesisClass)
    else if prefix == "current_status" then Some(StatusClass)
    else if prefix == "timeline" then Some(EventClass)
    else if prefix == "attention" then Some(AttentionClass)
    else if prefix == "decisions" then Some(DecisionClass)
    else if prefix == "deadlines" then Some(DeadlineClass)
    else if prefix == "related_processes" then Some(RelatedClass)
    else if prefix == "attachments" then Some(AttachmentClass)
    else None
  }

  datatype MaterialClaim = MaterialClaim(id: string, cls: Option<Class>, text: string, refs: seq<string>)

  datatype Error =
    | InvalidId(id: string) | DuplicateId(id: string) | Unexpected(id: string) | TextMismatch(id: string)
    | NoRefs(id: string) | DuplicateRef(id: string, ref: string) | InvalidRef(id: string, ref: string)
    | UnknownRef(id: string, ref: string) | Missing(id: string)

  function Stripped(items: seq<string>): seq<string> {
    seq(|items|, i requires 0 <= i < |items| => Strip(items[i]))
  }

  function RenderedClaim(c: Claim): MaterialClaim {
    MaterialClaim(Strip(c.id), ClassOf(Strip(c.id)), Strip(c.text), Stripped(c.refs))
  }

  function Rendered(claims: seq<Claim>): seq<MaterialClaim> {
    seq(|claims|, i requires 0 <= i < |claims| => RenderedClaim(claims[i]))
  }

  predicate RefsCited(refs: seq<string>, catalog: map<string, Source>) {
    && Distinct(Stripped(refs))
    && forall i :: 0 <= i < |refs| ==> IsRef(Strip(refs[i])) && Strip(refs[i]) in catalog
  }

  predicate ClaimFits(c: Claim, expected: map<string, string>, catalog: map<string, Source>) {
    && Strip(c.id) in expected && Strip(c.text) == expected[Strip(c.id)]
    && c.refs != [] && RefsCited(c.refs, catalog)
  }

  // Every claim is about a material field, in the words of the field and with citable sources, and
  // every material field has exactly one claim.
  ghost predicate IsCovered(p: Summary, claims: seq<Claim>, catalog: map<string, Source>) {
    && (forall i :: 0 <= i < |claims| ==> ClaimFits(claims[i], Expected(p), catalog))
    && (forall i, j :: 0 <= i < j < |claims| ==> Strip(claims[i].id) != Strip(claims[j].id))
    && forall id :: id in Expected(p) ==> exists i :: 0 <= i < |claims| && Strip(claims[i].id) == id
  }

  method CheckRefs(id: string, refs: seq<string>, catalog: map<string, Source>)
    returns (rendered: seq<string>, errors: seq<Error>)
    ensures errors == [] <==> RefsCited(refs, catalog)
    ensures errors == [] ==> rendered == Stripped(refs)
  {
    rendered, errors := [], [];
    var seen: set<string>, i := {}, 0;
    while i < |refs|
      invariant 0 <= i <= |refs|
      invariant seen == set k | 0 <= k < i :: Strip(refs[k])
      invariant errors == [] <==> RefsCited(refs[..i], catalog)
      invariant errors == [] ==> rendered == Stripped(refs[..i])
    {
      var ref := Strip(refs[i]);
      RefsCitedStep(refs, i, catalog);
      if ref in seen {
        errors := errors + [DuplicateRef(id, ref)];
      } else {
        seen := seen + {ref};
        if !IsRef(ref) {
          errors := errors + [InvalidRef(id, ref)];
        } else if ref !in catalog {
          errors := errors + [UnknownRef(id, ref)];
        } else {
          rendered := rendered + [ref];
        }
      }
      i := i + 1;
    }
    assert refs[..i] == refs;
  }

  lemma RefsCitedStep(refs: seq<string>, i: nat, catalog: map<string, Source>)
    requires i < |refs|
    ensures RefsCited(refs[..i + 1], catalog) <==>
      (RefsCited(refs[..i], catalog) && (forall k :: 0 <= k < i ==> Strip(refs[k]) != Strip(refs[i]))
       && IsRef(Strip(refs[i])) && Strip(refs[i]) in catalog)
    ensures Stripped(refs[..i + 1]) == Stripped(refs[..i]) + [Strip(refs[i])]
  {
    var now, before := Stripped(refs[..i + 1]), Stripped(refs[..i]);
    assert now == before + [Strip(refs[i])];
    assert forall k :: 0 <= k < i ==> before[k] == now[k] == Strip(refs[k]);
    assert forall k :: 0 <= k < i ==> refs[..i + 1][k] == refs[..i][k] == refs[k];
    assert refs[..i + 1][i] == refs[i] && now[i] == Strip(refs[i]);
    assert Distinct(now) <==> Distinct(before) && forall k :: 0 <= k < i ==> Strip(refs[k]) != Strip(refs[i]);
  }

  // The text and the references of a claim about an expected field.
  method CheckClaim(c: Claim, expected: map<string, string>, catalog: map<string, Source>)
    returns (claim: MaterialClaim, errors: seq<Error>)
    requires Strip(c.id) in expected
    ensures errors == [] <==> ClaimFits(c, expected, catalog)
    ensures errors == [] ==> claim == RenderedClaim(c)
  {
    var id := Strip(c.id);
    errors := [];
    if Strip(c.text) != expected[id] {
      errors := errors + [TextMismatch(id)];
    }
    if c.refs == [] {
      errors := errors + [NoRefs(id)];
    }
    var refs, refErrors := CheckRefs(id, c.refs, catalog);
    errors := errors + refErrors;
    claim := MaterialClaim(id, ClassOf(id), Strip(c.text), refs);
  }

  method MissingClaims(p: Summary, seen: set<string>) returns (errors: seq<Error>)
    ensures errors == [] <==> forall id :: id in Expected(p) ==> id in seen
  {
    ExpectedIsSlots(p);
    errors := [];
    var slots, k := Slots(p), 0;
    while k < |slots|
      invariant 0 <= k <= |slots|
      invariant errors == [] <==> forall j :: 0 <= j < k ==> slots[j].0 in seen
    {
      if slots[k].0 !in seen {
        errors := errors + [Missing(slots[k].0)];
      }
      k := k + 1;
    }
  }

  function Ids(claims: seq<Claim>, n: nat): set<string>
    requires n <= |claims|
  {
    set k | 0 <= k < n :: Strip(claims[k].id)
  }

  // The first n claims fit and are about different fields.
  ghost predicate FitSoFar(claims: seq<Claim>, n: nat, expected: map<string, string>, catalog: map<string, Source>)
    requires n <= |claims|
  {
    && (forall i :: 0 <= i < n ==> ClaimFits(claims[i], expected, catalog))
    && (forall i, j :: 0 <= i < j < n ==> Strip(claims[i].id) != Strip(claims[j].id))
  }

  lemma FitStep(claims: seq<Claim>, n: nat, expected: map<string, string>, catalog: map<string, Source>)
    requires n < |claims|
    ensures FitSoFar(claims, n + 1, expected, catalog) <==>
      (FitSoFar(claims, n, expected, catalog) && ClaimFits(claims[n], expected, catalog)
       && Strip(claims[n].id) !in Ids(claims, n))
    ensures Ids(claims, n + 1) == Ids(claims, n) + {Strip(claims[n].id)}
    ensures Rendered(claims[..n + 1]) == Rendered(claims[..n]) + [RenderedClaim(claims[n])]
  {
    IdsStep(claims, n);
    FitSnoc(claims, n, expected, catalog);
    RenderedSnoc(claims, n);
  }

  lemma RenderedSnoc(claims: seq<Claim>, n: nat)
    requires n < |claims|
    ensures Rendered(claims[..n + 1]) == Rendered(claims[..n]) + [RenderedClaim(claims[n])]
  {
  }

  lemma FitSnoc(claims: seq<Claim>, n: nat, expected: map<string, string>, catalog: map<string, Source>)
    requires n < |claims|
    ensures FitSoFar(claims, n + 1, expected, catalog) <==>
      (FitSoFar(claims, n, expected, catalog) && ClaimFits(claims[n], expected, catalog)
       && !exists k :: 0 <= k < n && Strip(claims[k].id) == Strip(claims[n].id))
  {
  }

  lemma IdsStep(claims: seq<Claim>, n: nat)
    requires n < |claims|
    ensures Ids(claims, n + 1) == Ids(claims, n) + {Strip(claims[n].id)}
    ensures Strip(claims[n].id) in Ids(claims, n) <==> exists k :: 0 <= k < n && Strip(claims[k].id) == Strip(claims[n].id)
  {
  }

  lemma CoveredWhen(p: Summary, catalog: map<string, Source>)
    ensures IsCovered(p, p.claims, catalog) <==>
      (FitSoFar(p.claims, |p.claims|, Expected(p), catalog) && forall id :: id in Expected(p) ==> id in Ids(p.claims, |p.claims|))
  {
  }

  // What becomes of the loop's state with one more claim.
  method CheckNext(c: Claim, seen: set<string>, expected: map<string, string>, catalog: map<string, Source>)
    returns (claims: seq<MaterialClaim>, now: set<string>, errors: seq<Error>)
    requires forall id :: id in expected ==> IsClaimId(id)
    ensures errors == [] <==> ClaimFits(c, expected, catalog) && Strip(c.id) !in seen
    ensures errors == [] ==> claims == [RenderedClaim(c)] && now == seen + {Strip(c.id)}
  {
    var id := Strip(c.id);
    claims, now, errors := [], seen, [];
    if !IsClaimId(id) {
      errors := [InvalidId(id)];
    } else if id in seen {
      errors := [DuplicateId(id)];
    } else {
      now := now + {id};
      if id !in expected {
        errors := [Unexpected(id)];
      } else {
        var claim, claimErrors := CheckClaim(c, expected, catalog);
        claims, errors := [claim], claimErrors;
      }
    }
  }

  // What the loop knows after n claims; `silent` says that nothing was reported.
  ghost predicate Checked(given: seq<Claim>, n: nat, expected: map<string, string>, catalog: map<string, Source>,
                          claims: seq<MaterialClaim>, seen: set<string>, silent: bool)
    requires n <= |given|
  {
    && (silent <==> FitSoFar(given, n, expected, catalog))
    && (silent ==> claims == Rendered(given[..n]) && seen == Ids(given, n))
  }

  lemma CheckedStep(given: seq<Claim>, n: nat, expected: map<string, string>, catalog: map<string, Source>,
                    claims: seq<MaterialClaim>, seen: set<string>, silent: bool,
                    more: seq<MaterialClaim>, now: set<string>, fits: bool)
    requires n < |given| && Checked(given, n, expected, catalog, claims, seen, silent)
    requires fits <==> ClaimFits(given[n], expected, catalog) && Strip(given[n].id) !in seen
    requires fits ==> more == [RenderedClaim(given[n])] && now == seen + {Strip(given[n].id)}
    ensures Checked(given, n + 1, expected, catalog, claims + more, now, silent && fits)
  {
    FitStep(given, n, expected, catalog);
  }

  // The loop over the claims.
  method CheckEach(given: seq<Claim>, expected: map<string, string>, catalog: map<string, Source>)
    returns (claims: seq<MaterialClaim>, seen: set<string>, errors: seq<Error>)
    requires forall id :: id in expected ==> IsClaimId(id)
    ensures Checked(given, |given|, expected, catalog, claims, seen, errors == [])
  {
    claims, seen, errors := [], {}, [];
    var i := 0;
    while i < |given|
      invariant 0 <= i <= |given|
      invariant Checked(given, i, expected, catalog, claims, seen, errors == [])
    {
      var more, now, problems := CheckNext(given[i], seen, expected, catalog);
      CheckedStep(given, i, expected, catalog, claims, seen, errors == [], more, now, problems == []);
      claims, seen, errors := claims + more, now, errors + problems;
      i := i + 1;
    }
  }

  lemma CheckedAll(p: Summary, catalog: map<string, Source>, claims: seq<MaterialClaim>, seen: set<string>, silent: bool, complete: bool)
    requires Checked(p.claims, |p.claims|, Expected(p), catalog, claims, seen, silent)
    requires complete <==> forall id :: id in Expected(p) ==> id in seen
    ensures silent && complete <==> IsCovered(p, p.claims, catalog)
    ensures silent ==> claims == Rendered(p.claims)
  {
    assert p.claims[..|p.claims|] == p.claims;
    CoveredWhen(p, catalog);
  }

  // Every claim says what one of the eight fields says, with citable sources, and there is exactly
  // one claim for each of them.
  ghost predicate CoversFields(p: Summary, claims: seq<Claim>, catalog: map<string, Source>) {
    && (forall i :: 0 <= i < |claims| ==>
          IsField(p, Strip(claims[i].id), Strip(claims[i].text)) && claims[i].refs != [] && RefsCited(claims[i].refs, catalog))
    && (forall i, j :: 0 <= i < j < |claims| ==> Strip(claims[i].id) != Strip(claims[j].id))
    && forall id, text :: IsField(p, id, text) ==> exists i :: 0 <= i < |claims| && Strip(claims[i].id) == id
  }

  lemma CoveredMeans(p: Summary, claims: seq<Claim>, catalog: map<string, Source>)
    ensures IsCovered(p, claims, catalog) <==> CoversFields(p, claims, catalog)
  {
    forall i | 0 <= i < |claims|
      ensures Strip(claims[i].id) in Expected(p) && Strip(claims[i].text) == Expected(p)[Strip(claims[i].id)] <==>
        IsField(p, Strip(claims[i].id), Strip(claims[i].text))
    {
      ExpectedIsFields(p, Strip(claims[i].id), Strip(claims[i].text));
    }
    forall id, text | IsField(p, id, text) ensures id in Expected(p) {
      ExpectedIsFields(p, id, text);
    }
    forall id | id in Expected(p) ensures IsField(p, id, Expected(p)[id]) {
      ExpectedIsFields(p, id, Expected(p)[id]);
    }
  }

  // Nothing is reported exactly when every material field is covered; then the claims come out as
  // they were given.
  method ValidateClaimEvidence(p: Summary, catalog: map<string, Source>)
    returns (claims: seq<MaterialClaim>, errors: seq<Error>)
    ensures errors == [] <==> IsCovered(p, p.claims, catalog)
    ensures errors == [] <==> CoversFields(p, p.claims, catalog)
    ensures errors == [] ==> claims == Rendered(p.claims)
  {
    CoveredMeans(p, p.claims, catalog);
    var expected := ExpectedMaterialClaims(p);
    assert forall id :: id in expected ==> IsClaimId(id) by {
      ExpectedIsSlots(p);
    }
    var seen: set<string>;
    claims, seen, errors := CheckEach(p.claims, expected, catalog);
    var missing := MissingClaims(p, seen);
    CheckedAll(p, catalog, claims, seen, errors == [], missing == []);
    errors := errors + missing;
  }
}
