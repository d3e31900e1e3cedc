/** The stored document of a summary: its part about the process and its part from the provider
    (structured_summary_document and its checks in app/summary_output.py). */
module SummaryDocument {
  import opened Wrappers
  import opened Text
  import opened SummaryOutput

  const DOCUMENT_KEYS: set<string> := {"schema_version", "process", "summary"}
  const PROCESS_KEYS: set<string> := {"cnj", "class_name", "court", "header", "parties"}
  const PARTY_KEYS: set<string> := {"name", "side", "person_type", "masked_person_id"}
  const HEADER_KEYS: set<string> := {"instance", "area", "justice_description", "county", "state", "city", "amount"}

  // What the context, and later the process row, says of the process.
  datatype ProcessRow = ProcessRow(code: Json, className: Json, court: Json, header: Json, parties: Json)

  /* ---- structured_summary_process ---- */

  function OrNull(s: string): Json {
    if s == [] then JNull else JString(s)
  }

  // {key: item.get(key) for key in keys if item.get(key) is not None}
  function Present(fields: map<string, Json>, keys: set<string>): map<string, Json> {
    map k | k in fields && k in keys && fields[k] != JNull :: fields[k]
  }

  function Parties(items: seq<Json>): seq<Json> {
    if items == [] then []
    else
      var last := items[|items| - 1];
      Parties(items[..|items| - 1]) + if last.JObject? then [JObject(Present(last.fields, PARTY_KEYS))] else []
  }

  function HeaderPart(header: Json): map<string, Json> {
    if header.JObject? then Present(header.fields, HEADER_KEYS) else map[]
  }

  function PartiesPart(parties: Json): seq<Json> {
    if parties.JArray? then Parties(parties.items) else []
  }

  function ProcessPart(row: ProcessRow, render: Json -> string): Json {
    JObject(map[
      "cnj" := JString(InlineOf(row.code, render)), "class_name" := OrNull(InlineOf(row.className, render)),
      "court" := OrNull(InlineOf(row.court, render)), "header" := JObject(HeaderPart(row.header)),
      "parties" := JArray(PartiesPart(row.parties))])
  }

  function Document(p: Summary, row: ProcessRow, render: Json -> string): Json {
    JObject(map["schema_version" := JNumber(2.0), "process" := ProcessPart(row, render), "summary" := ToJson(p)])
  }

  /* ---- structured_summary_document_is_canonical and ..._matches_process ---- */

  predicate IsScalar(value: Json) {
    !value.JObject? && !value.JArray?
  }

  predicate IsTextOrNull(value: Json) {
    value.JNull? || value.JString?
  }

  predicate IsHeader(value: Json) {
    value.JObject? && value.fields.Keys <= HEADER_KEYS && forall k :: k in value.fields ==> IsScalar(value.fields[k])
  }

  predicate IsParty(value: Json) {
    value.JObject? && value.fields.Keys <= PARTY_KEYS && forall k :: k in value.fields ==> value.fields[k].JString?
  }

  predicate AreParties(value: Json) {
    value.JArray? && forall i :: 0 <= i < |value.items| ==> IsParty(value.items[i])
  }

  predicate IsProcess(value: Json) {
    && value.JObject? && value.fields.Keys == PROCESS_KEYS
    && value.fields["cnj"].JString? && IsTextOrNull(value.fields["class_name"]) && IsTextOrNull(value.fields["court"])
    && IsHeader(value.fields["header"]) && AreParties(value.fields["parties"])
  }

  predicate IsDocument(doc: Json, render: Json -> string) {
    && doc.JObject? && doc.fields.Keys == DOCUMENT_KEYS && doc.fields["schema_version"] == JNumber(2.0)
    && IsProcess(doc.fields["process"]) && IsCanonical(doc.fields["summary"], render)
  }

  predicate IsOfProcess(doc: Json, row: ProcessRow, render: Json -> string) {
    IsDocument(doc, render) && doc.fields["process"] == ProcessPart(row, render)
  }

  // The row as the gate reads it: other values of these columns are refused.
  predicate Decodes(row: ProcessRow) {
    (row.header.JNull? || row.header.JObject?) && (row.parties.JNull? || row.parties.JArray?)
  }

  // The document of the row reads the same as the later row, and is well formed.
  predicate StillReads(row: ProcessRow, later: ProcessRow, render: Json -> string) {
    && (later.header == JNull || later.header.JObject?) && (later.parties == JNull || later.parties.JArray?)
    && ProcessPart(row, render) == ProcessPart(later, render)
    && IsFlatHeader(row.header) && AreTextParties(row.parties)
  }

  function SummaryOf(doc: Json, render: Json -> string): Summary
    requires IsDocument(doc, render)
  {
    Parse(doc.fields["summary"], render).value
  }

  /* ---- Which documents are canonical ---- */

  // No value of the header that is shown is a list or an object.
  predicate IsFlatHeader(header: Json) {
    header.JObject? ==> forall k :: k in header.fields && k in HEADER_KEYS ==> IsScalar(header.fields[k])
  }

  predicate IsTextParty(party: Json) {
    party.JObject? ==> forall k :: k in party.fields && k in PARTY_KEYS ==> IsTextOrNull(party.fields[k])
  }

  // Every shown value of a party is a text.
  predicate AreTextParties(parties: Json) {
    parties.JArray? ==> forall i :: 0 <= i < |parties.items| ==> IsTextParty(parties.items[i])
  }

  lemma HeaderIsFlat(header: Json)
    ensures IsHeader(JObject(HeaderPart(header))) <==> IsFlatHeader(header)
  {
    if header.JObject? {
      var kept := Present(header.fields, HEADER_KEYS);
      forall k | k in header.fields && k in HEADER_KEYS ensures IsScalar(header.fields[k]) <==> k in kept ==> IsScalar(kept[k]) {
      }
    }
  }

  lemma PartyIsText(party: Json)
    requires party.JObject?
    ensures IsParty(JObject(Present(party.fields, PARTY_KEYS))) <==> IsTextParty(party)
  {
    var kept := Present(party.fields, PARTY_KEYS);
    forall k | k in party.fields && k in PARTY_KEYS
      ensures IsTextOrNull(party.fields[k]) <==> k in kept ==> kept[k].JString?
    {
    }
  }

  lemma {:induction false} PartiesAreText(items: seq<Json>)
    ensures AreParties(JArray(Parties(items))) <==> AreTextParties(JArray(items))
  {
    if items != [] {
      var front, last := items[..|items| - 1], items[|items| - 1];
      PartiesAreText(front);
      PartiesSplit(front, last);
      assert items == front + [last];
      var kept := Parties(front);
      assert kept + [] == kept;
      if last.JObject? {
        PartyIsText(last);
        AddedParty(kept, JObject(Present(last.fields, PARTY_KEYS)));
      }
    }
  }

  lemma PartiesSplit(front: seq<Json>, last: Json)
    ensures AreTextParties(JArray(front + [last])) <==> AreTextParties(JArray(front)) && IsTextParty(last)
  {
    var all := front + [last];
    assert all[|front|] == last;
    forall i | 0 <= i < |front| ensures all[i] == front[i] {
    }
    if AreTextParties(JArray(all)) {
      forall i | 0 <= i < |front| ensures IsTextParty(front[i]) {
        assert IsTextParty(all[i]);
      }
    }
  }

  lemma AddedParty(kept: seq<Json>, party: Json)
    ensures AreParties(JArray(kept + [party])) <==> AreParties(JArray(kept)) && IsParty(party)
  {
    var all := kept + [party];
    assert all[|kept|] == party;
    if AreParties(JArray(all)) {
      forall i | 0 <= i < |kept| ensures IsParty(kept[i]) {
        assert IsParty(all[i]);
      }
    }
  }

  lemma ProcessLookups(row: ProcessRow, render: Json -> string)
    ensures var f := ProcessPart(row, render).fields;
      && f.Keys == PROCESS_KEYS && f["cnj"].JString? && IsTextOrNull(f["class_name"]) && IsTextOrNull(f["court"])
      && f["header"] == JObject(HeaderPart(row.header)) && f["parties"] == JArray(PartiesPart(row.parties))
  {
  }

  // The part about the process passes the check exactly when the header is flat and what is kept
  // of the parties is text.
  lemma ProcessPartIsProcess(row: ProcessRow, render: Json -> string)
    ensures IsProcess(ProcessPart(row, render)) <==> IsFlatHeader(row.header) && AreTextParties(row.parties)
  {
    ProcessLookups(row, render);
    HeaderIsFlat(row.header);
    if row.parties.JArray? {
      PartiesAreText(row.parties.items);
      assert JArray(row.parties.items) == row.parties;
    }
  }

  lemma DocumentLookups(p: Summary, row: ProcessRow, render: Json -> string)
    ensures var f := Document(p, row, render).fields;
      && f.Keys == DOCUMENT_KEYS && f["schema_version"] == JNumber(2.0)
      && f["process"] == ProcessPart(row, render) && f["summary"] == ToJson(p)
  {
  }

  // The document the program builds is canonical exactly when its summary is a normal form within
  // the caps and the process has a flat header and parties of text; its summary is then read back.
  lemma DocumentIsCanonical(p: Summary, row: ProcessRow, render: Json -> string)
    ensures IsDocument(Document(p, row, render), render) <==>
      IsNormal(p) && Fits(p) && IsFlatHeader(row.header) && AreTextParties(row.parties)
    ensures IsDocument(Document(p, row, render), render) ==> SummaryOf(Document(p, row, render), render) == p
  {
    DocumentLookups(p, row, render);
    ProcessPartIsProcess(row, render);
    CanonicalIsNormal(p, render);
    if IsNormal(p) && Fits(p) {
      NormalReparses(p, render);
    }
  }

  // It is of the process exactly when, besides, the process still reads the same.
  lemma DocumentIsOfProcess(p: Summary, row: ProcessRow, later: ProcessRow, render: Json -> string)
    ensures IsOfProcess(Document(p, row, render), later, render) <==>
      IsDocument(Document(p, row, render), render) && ProcessPart(row, render) == ProcessPart(later, render)
  {
    DocumentLookups(p, row, render);
  }

  // What the part about the process says: the two names are null where there is no text; only the
  // listed keys are kept of the header and of the parties that are objects, and nulls are dropped.
  lemma ProcessPartMeans(row: ProcessRow, render: Json -> string)
    ensures var f := ProcessPart(row, render).fields;
      && f.Keys == {"cnj", "class_name", "court", "header", "parties"} && f["cnj"] == JString(InlineOf(row.code, render))
      && (f["class_name"] == JNull <==> InlineOf(row.className, render) == "")
      && (f["class_name"] != JNull ==> f["class_name"] == JString(InlineOf(row.className, render)))
      && (f["court"] == JNull <==> InlineOf(row.court, render) == "")
      && (f["court"] != JNull ==> f["court"] == JString(InlineOf(row.court, render)))
      && f["parties"] == JArray(if row.parties.JArray? then Parties(row.parties.items) else [])
  {
  }

  lemma HeaderMeans(row: ProcessRow, render: Json -> string)
    ensures var f := ProcessPart(row, render).fields;
      && f["header"].JObject?
      && (forall k :: k in f["header"].fields <==>
            row.header.JObject? && k in row.header.fields && row.header.fields[k] != JNull
            && k in {"instance", "area", "justice_description", "county", "state", "city", "amount"})
      && (forall k :: k in f["header"].fields ==> f["header"].fields[k] == row.header.fields[k])
  {
  }

  lemma {:induction false} PartiesAdd(items: seq<Json>, more: seq<Json>)
    ensures Parties(items + more) == Parties(items) + Parties(more)
  {
    if more == [] {
      assert items + more == items;
    } else {
      PartiesAdd(items, more[..|more| - 1]);
      assert (items + more)[..|items + more| - 1] == items + more[..|more| - 1];
    }
  }

  lemma PartyMeans(item: Json)
    ensures !item.JObject? ==> Parties([item]) == []
    ensures item.JObject? ==> exists kept: map<string, Json> :: Parties([item]) == [JObject(kept)] && IsKeptParty(item.fields, kept)
  {
    assert [item][..0] == [] && Parties([]) == [];
    if item.JObject? {
      assert Parties([item]) == [JObject(Present(item.fields, PARTY_KEYS))];
    }
  }

  ghost predicate IsKeptParty(fields: map<string, Json>, kept: map<string, Json>) {
    && (forall k :: k in kept <==> k in fields && fields[k] != JNull && k in {"name", "side", "person_type", "masked_person_id"})
    && forall k :: k in kept ==> kept[k] == fields[k]
  }

  // A nested value in the header, and no summary of the process has a canonical document.
  lemma NestedAmountIsRefused(p: Summary, row: ProcessRow, render: Json -> string)
    requires row.header == JObject(map["amount" := JArray([])])
    ensures !IsDocument(Document(p, row, render), render)
  {
    DocumentIsCanonical(p, row, render);
    assert "amount" in row.header.fields && "amount" in HEADER_KEYS;
  }

  /* ---- The form of a canonical document ---- */

  datatype Parts = Parts(
    cnj: string, className: Json, court: Json, header: map<string, Json>, parties: seq<Json>, summary: Summary)

  function AssembledProcess(d: Parts): Json {
    JObject(map["cnj" := JString(d.cnj), "class_name" := d.className, "court" := d.court,
                "header" := JObject(d.header), "parties" := JArray(d.parties)])
  }

  function Assembled(d: Parts): Json {
    JObject(map["schema_version" := JNumber(2.0), "process" := AssembledProcess(d), "summary" := ToJson(d.summary)])
  }

  ghost predicate AreParts(d: Parts) {
    && (d.className.JNull? || d.className.JString?) && (d.court.JNull? || d.court.JString?)
    && (forall k :: k in d.header ==>
          k in {"instance", "area", "justice_description", "county", "state", "city", "amount"}
          && !d.header[k].JObject? && !d.header[k].JArray?)
    && (forall party :: party in d.parties ==>
          party.JObject? && forall k :: k in party.fields ==>
            k in {"name", "side", "person_type", "masked_person_id"} && party.fields[k].JString?)
    && IsNormal(d.summary) && Fits(d.summary)
  }

  // The canonical documents are exactly those put together from such parts: nothing is missing,
  // nothing is added and nothing has another type.
  lemma CanonicalForm(doc: Json, render: Json -> string)
    ensures IsDocument(doc, render) <==> exists d: Parts :: doc == Assembled(d) && AreParts(d)
  {
    if IsDocument(doc, render) {
      var d := PartsOf(doc, render);
    }
    if d: Parts :| doc == Assembled(d) && AreParts(d) {
      AssembledIsDocument(d, render);
    }
  }

  lemma PartsOf(doc: Json, render: Json -> string) returns (d: Parts)
    requires IsDocument(doc, render)
    ensures doc == Assembled(d) && AreParts(d)
  {
    d := ProcessParts(doc.fields["process"], SummaryOf(doc, render));
    SameFields(doc.fields, Assembled(d).fields, d);
    SummaryIsNormal(doc.fields["summary"], render);
    PartsAre(d);
  }

  lemma SameFields(f: map<string, Json>, g: map<string, Json>, d: Parts)
    requires f.Keys == DOCUMENT_KEYS && f["schema_version"] == JNumber(2.0)
    requires f["process"] == AssembledProcess(d) && f["summary"] == ToJson(d.summary) && g == Assembled(d).fields
    ensures f == g
  {
  }

  lemma SummaryIsNormal(summary: Json, render: Json -> string)
    requires IsCanonical(summary, render)
    ensures var p := Parse(summary, render).value; IsNormal(p) && Fits(p) && summary == ToJson(p)
  {
    CanonicalIsNormal(Parse(summary, render).value, render);
  }

  lemma PartsAre(d: Parts)
    requires IsTextOrNull(d.className) && IsTextOrNull(d.court) && IsHeader(JObject(d.header))
    requires forall party :: party in d.parties ==> IsParty(party)
    requires IsNormal(d.summary) && Fits(d.summary)
    ensures AreParts(d)
  {
  }

  lemma ProcessParts(process: Json, p: Summary) returns (d: Parts)
    requires IsProcess(process)
    ensures process == AssembledProcess(d) && d.summary == p
    ensures IsTextOrNull(d.className) && IsTextOrNull(d.court) && IsHeader(JObject(d.header))
    ensures forall party :: party in d.parties ==> IsParty(party)
  {
    var f := process.fields;
    d := Parts(f["cnj"].s, f["class_name"], f["court"], f["header"].fields, f["parties"].items, p);
    assert f == AssembledProcess(d).fields;
    forall party | party in d.parties ensures IsParty(party) {
      var i :| 0 <= i < |d.parties| && d.parties[i] == party;
    }
  }

  lemma AssembledIsProcess(d: Parts)
    requires IsTextOrNull(d.className) && IsTextOrNull(d.court) && IsHeader(JObject(d.header)) && AreParties(JArray(d.parties))
    ensures IsProcess(AssembledProcess(d))
  {
  }

  lemma AssembledIsDocument(d: Parts, render: Json -> string)
    requires AreParts(d)
    ensures IsDocument(Assembled(d), render)
  {
    assert IsHeader(JObject(d.header)) && AreParties(JArray(d.parties));
    AssembledIsProcess(d);
    CanonicalIsNormal(d.summary, render);
    AssembledFields(d);
  }

  lemma AssembledFields(d: Parts)
    ensures var f := Assembled(d).fields;
      f.Keys == DOCUMENT_KEYS && f["schema_version"] == JNumber(2.0) && f["process"] == AssembledProcess(d) && f["summary"] == ToJson(d.summary)
  {
  }
}
