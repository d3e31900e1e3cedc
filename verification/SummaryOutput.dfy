/** app/summary_output.py: the parser of provider summaries and its normal form.

    Decoded JSON is a value; JSON text is left out, since decoding what was encoded gives the
    value back.  `render` is str() of a value that is not a string. */
module SummaryOutput {
  import opened Wrappers
  import opened Text

  datatype Json =
    | JNull
    | JBool(b: bool)
    | JNumber(n: real)
    | JString(s: string)
    | JArray(items: seq<Json>)
    | JObject(fields: map<string, Json>)
  {
    // Python truthiness, used by `value or ""`.
    predicate Truthy() {
      match this
      case JNull => false
      case JBool(b) => b
      case JNumber(n) => n != 0.0
      case JString(s) => s != ""
      case JArray(items) => items != []
      case JObject(fields) => fields != map[]
    }
  }

  const WORD_JOINER := '\U{2060}'
  const MAX_SYNTHESIS_CHARS := 6000
  const MAX_STATUS_CHARS := 4000
  const MAX_ITEM_CHARS := 2000
  const MAX_CLAIMS := 96
  const MAX_CLAIM_ID_CHARS := 64
  const MAX_REFS := 32

  const LEGACY_KEYS: set<string> :=
    {"synthesis", "timeline", "current_status", "attention", "decisions", "deadlines", "related_processes", "attachments"}
  const REQUIRED_KEYS: set<string> := LEGACY_KEYS + {"claims"}
  const CLAIM_KEYS: set<string> := {"claim_id", "text", "evidence_refs"}

  function MaxItems(key: string): nat {
    if key == "timeline" then 24 else if key == "decisions" then 16 else 12
  }

  datatype Claim = Claim(id: string, text: string, refs: seq<string>)

  datatype Summary = Summary(
    synthesis: string, timeline: seq<string>, status: string, attention: seq<string>, decisions: seq<string>,
    deadlines: seq<string>, related: seq<string>, attachments: seq<string>, claims: seq<Claim>)

  /* ---- _prose_line ---- */

  predicate NeedsGuard(s: string) {
    (|s| >= 1 && (s[0] == '#' || s[0] == '<' || s[0] == '`'))
    || (|s| >= 2 && (s[0] == '-' || s[0] == '*') && s[1] == ' ')
  }

  function ProseLine(s: string): string {
    var text := Inline(s);
    if NeedsGuard(text) then [WORD_JOINER] + text else text
  }

  predicate IsProse(s: string) {
    IsInline(s) && !NeedsGuard(s)
  }

  // A prose line is in normal form, a normal form is its own prose line, and only a blank text has
  // an empty one.  The guard makes it at most one character longer than the text.
  lemma ProseNormalizes(s: string)
    ensures IsProse(ProseLine(s)) && |ProseLine(s)| <= |s| + 1
    ensures IsProse(s) ==> ProseLine(s) == s
    ensures ProseLine(s) == [] <==> Inline(s) == []
    ensures Inline(ProseLine(s)) == ProseLine(s)
  {
    InlineNormalizes(s);
    var text := Inline(s);
    assert IsInline(ProseLine(s));
    InlineNormalizes(ProseLine(s));
  }

  /* ---- _string_list ---- */

  predicate AllStrings(items: seq<Json>) {
    forall i :: 0 <= i < |items| ==> items[i].JString?
  }

  // [_prose_line(item) for item in value if _inline(item)]
  function ProseItems(items: seq<Json>): seq<string>
    requires AllStrings(items)
  {
    if items == [] then []
    else
      var rest := ProseItems(items[1..]);
      if Inline(items[0].s) == [] then rest else [ProseLine(items[0].s)] + rest
  }

  predicate IsItemList(items: seq<string>, key: string) {
    && |items| <= MaxItems(key)
    && forall i :: 0 <= i < |items| ==> IsProse(items[i]) && items[i] != [] && |items[i]| <= MAX_ITEM_CHARS
  }

  function StringList(value: Json, key: string, nonempty: bool): Result<seq<string>> {
    if !value.JArray? || !AllStrings(value.items) then Err("structured summary field must be a string array")
    else if |value.items| > MaxItems(key) then Err("structured summary field has too many items")
    else
      var rendered := ProseItems(value.items);
      if exists i :: 0 <= i < |rendered| && |rendered[i]| > MAX_ITEM_CHARS then Err("structured summary item is too long")
      else if nonempty && rendered == [] then Err("structured summary field must not be empty")
      else Ok(rendered)
  }

  function Strings(items: seq<string>): Json {
    JArray(seq(|items|, i requires 0 <= i < |items| => JString(items[i])))
  }

  lemma {:induction false} ProseItemsAreItems(items: seq<Json>)
    requires AllStrings(items)
    ensures |ProseItems(items)| <= |items|
    ensures forall i :: 0 <= i < |ProseItems(items)| ==> IsProse(ProseItems(items)[i]) && ProseItems(items)[i] != []
  {
    if items != [] {
      ProseItemsAreItems(items[1..]);
      ProseNormalizes(items[0].s);
    }
  }

  lemma {:induction false} ProseItemsOfItems(items: seq<string>)
    requires forall i :: 0 <= i < |items| ==> IsProse(items[i]) && items[i] != []
    ensures ProseItems(Strings(items).items) == items
  {
    if items != [] {
      ProseItemsOfItems(items[1..]);
      assert Strings(items).items[1..] == Strings(items[1..]).items;
      ProseNormalizes(items[0]);
      assert items == [items[0]] + items[1..];
    }
  }

  // A parsed list is a list of items, and a list of items parses to itself.
  lemma StringListNormalizes(value: Json, key: string, nonempty: bool)
    ensures var r := StringList(value, key, nonempty);
      r.Ok? ==> IsItemList(r.value, key) && (nonempty ==> r.value != [])
  {
    if value.JArray? && AllStrings(value.items) {
      ProseItemsAreItems(value.items);
    }
  }

  lemma StringListOfItems(items: seq<string>, key: string, nonempty: bool)
    requires IsItemList(items, key) && (nonempty ==> items != [])
    ensures StringList(Strings(items), key, nonempty) == Ok(items)
  {
    ProseItemsOfItems(items);
  }

  /* ---- _claims ---- */

  function InlineOf(value: Json, render: Json -> string): string {
    Inline(if !value.Truthy() then "" else if value.JString? then value.s else render(value))
  }

  function InlineAll(items: seq<Json>): seq<string>
    requires AllStrings(items)
  {
    seq(|items|, i requires 0 <= i < |items| => Inline(items[i].s))
  }

  predicate Distinct(items: seq<string>) {
    forall i, j :: 0 <= i < j < |items| ==> items[i] != items[j]
  }

  function ParseRefs(refs: Json): Result<seq<string>> {
    if !refs.JArray? || refs.items == [] || |refs.items| > MAX_REFS || !AllStrings(refs.items)
       || (exists i :: 0 <= i < |refs.items| && InlineAll(refs.items)[i] == [])
      then Err("structured summary claim evidence_refs are invalid")
    else if !Distinct(InlineAll(refs.items)) then Err("structured summary claim evidence_refs must be unique")
    else Ok(InlineAll(refs.items))
  }

  function ParseClaimFields(id: string, text: Json, refs: Json): Result<Claim> {
    if id == [] || |id| > MAX_CLAIM_ID_CHARS then Err("structured summary claim_id is invalid")
    else if !text.JString? || Inline(text.s) == [] then Err("structured summary claim text must be non-empty")
    else if |text.s| > MAX_SYNTHESIS_CHARS then Err("structured summary claim text is too long")
    else
      var rendered := ParseRefs(refs);
      if rendered.Err? then Err(rendered.error) else Ok(Claim(id, ProseLine(text.s), rendered.value))
  }

  function ParseClaim(item: Json, render: Json -> string): Result<Claim> {
    if !item.JObject? || item.fields.Keys != CLAIM_KEYS then Err("structured summary claim keys do not match the contract")
    else ParseClaimFields(InlineOf(item.fields["claim_id"], render), item.fields["text"], item.fields["evidence_refs"])
  }

  function ParseClaims(items: seq<Json>, render: Json -> string): Result<seq<Claim>> {
    if items == [] then Ok([])
    else
      var front := ParseClaims(items[..|items| - 1], render);
      if front.Err? then front
      else
        var last := ParseClaim(items[|items| - 1], render);
        if last.Err? then Err(last.error) else Ok(front.value + [last.value])
  }

  function ClaimsOf(value: Json, render: Json -> string): Result<seq<Claim>> {
    if !value.JArray? || |value.items| > MAX_CLAIMS then Err("structured summary claims must be a bounded array")
    else ParseClaims(value.items, render)
  }

  // The loop of _claims: it appends and stops at the first invalid claim.
  method Claims(value: Json, render: Json -> string) returns (claims: Result<seq<Claim>>)
    ensures claims == ClaimsOf(value, render)
  {
    if !value.JArray? || |value.items| > MAX_CLAIMS {
      return Err("structured summary claims must be a bounded array");
    }
    var parsed: seq<Claim> := [];
    var i := 0;
    while i < |value.items|
      invariant 0 <= i <= |value.items|
      invariant ParseClaims(value.items[..i], render) == Ok(parsed)
    {
      var claim := ParseClaim(value.items[i], render);
      ParseOneMore(value.items, i, parsed, render);
      if claim.Err? {
        StopsAtFirstError(value.items, i + 1, render);
        return Err(claim.error);
      }
      parsed := parsed + [claim.value];
      i := i + 1;
    }
    assert value.items[..i] == value.items;
    return Ok(parsed);
  }

  lemma ParseOneMore(items: seq<Json>, i: nat, parsed: seq<Claim>, render: Json -> string)
    requires i < |items| && ParseClaims(items[..i], render) == Ok(parsed)
    ensures var claim := ParseClaim(items[i], render);
      ParseClaims(items[..i + 1], render) == if claim.Err? then Err(claim.error) else Ok(parsed + [claim.value])
  {
    assert items[..i + 1][..i] == items[..i];
  }

  lemma {:induction false} StopsAtFirstError(items: seq<Json>, n: nat, render: Json -> string)
    requires n <= |items| && ParseClaims(items[..n], render).Err?
    ensures ParseClaims(items, render) == ParseClaims(items[..n], render)
  {
    if n == |items| {
      assert items[..n] == items;
    } else {
      var front := items[..|items| - 1];
      assert front[..n] == items[..n];
      StopsAtFirstError(front, n, render);
    }
  }

  predicate IsClaim(c: Claim) {
    && IsInline(c.id) && 1 <= |c.id| <= MAX_CLAIM_ID_CHARS
    && IsProse(c.text) && c.text != []
    && IsRefList(c.refs)
  }

  function ClaimJson(c: Claim): Json {
    JObject(map["claim_id" := JString(c.id), "text" := JString(c.text), "evidence_refs" := Strings(c.refs)])
  }

  function ClaimsJson(claims: seq<Claim>): Json {
    JArray(seq(|claims|, i requires 0 <= i < |claims| => ClaimJson(claims[i])))
  }

  predicate IsRefList(refs: seq<string>) {
    && 1 <= |refs| <= MAX_REFS && Distinct(refs)
    && forall i :: 0 <= i < |refs| ==> IsInline(refs[i]) && refs[i] != []
  }

  lemma RefsReparse(refs: seq<string>)
    requires IsRefList(refs)
    ensures ParseRefs(Strings(refs)) == Ok(refs)
  {
    var items := Strings(refs).items;
    forall i | 0 <= i < |refs| ensures InlineAll(items)[i] == refs[i] {
      InlineNormalizes(refs[i]);
    }
    assert InlineAll(items) == refs;
  }

  lemma ParsedRefsAreRefs(refs: Json)
    requires ParseRefs(refs).Ok?
    ensures IsRefList(ParseRefs(refs).value)
  {
    forall i | 0 <= i < |refs.items| ensures IsInline(InlineAll(refs.items)[i]) {
      InlineNormalizes(refs.items[i].s);
    }
  }

  lemma ParsedClaimIsClaim(item: Json, render: Json -> string)
    requires ParseClaim(item, render).Ok?
    ensures IsClaim(ParseClaim(item, render).value)
  {
    var id := item.fields["claim_id"];
    InlineNormalizes(if !id.Truthy() then "" else if id.JString? then id.s else render(id));
    ProseNormalizes(item.fields["text"].s);
    ParsedRefsAreRefs(item.fields["evidence_refs"]);
  }

  lemma ClaimLookups(c: Claim)
    ensures var f := ClaimJson(c).fields;
      f.Keys == CLAIM_KEYS && f["claim_id"] == JString(c.id) && f["text"] == JString(c.text) && f["evidence_refs"] == Strings(c.refs)
  {
  }

  lemma LongClaim(c: Claim)
    requires IsClaim(c) && |c.text| > MAX_SYNTHESIS_CHARS
    ensures ParseClaimFields(c.id, JString(c.text), Strings(c.refs)).Err?
  {
  }

  lemma ClaimFieldsReparse(c: Claim)
    requires IsClaim(c)
    ensures var r := ParseClaimFields(c.id, JString(c.text), Strings(c.refs));
      if |c.text| <= MAX_SYNTHESIS_CHARS then r == Ok(c) else r.Err?
  {
    if |c.text| > MAX_SYNTHESIS_CHARS {
      LongClaim(c);
    } else {
      assert ProseLine(c.text) == c.text && Inline(c.text) == c.text by { ProseNormalizes(c.text); }
      assert ParseRefs(Strings(c.refs)) == Ok(c.refs) by { RefsReparse(c.refs); }
    }
  }

  // A claim in normal form parses to itself exactly when its text is within the cap, which the
  // parser checked before the guard was added.
  lemma ClaimReparses(c: Claim, render: Json -> string)
    requires IsClaim(c)
    ensures |c.text| <= MAX_SYNTHESIS_CHARS ==> ParseClaim(ClaimJson(c), render) == Ok(c)
    ensures |c.text| > MAX_SYNTHESIS_CHARS ==> ParseClaim(ClaimJson(c), render).Err?
  {
    ClaimLookups(c);
    InlineNormalizes(c.id);
    ClaimFieldsReparse(c);
  }

  predicate ClaimsFit(claims: seq<Claim>) {
    forall i :: 0 <= i < |claims| ==> |claims[i].text| <= MAX_SYNTHESIS_CHARS
  }

  lemma {:induction false} ParsedClaimsAreClaims(items: seq<Json>, render: Json -> string)
    requires ParseClaims(items, render).Ok?
    ensures var claims := ParseClaims(items, render).value;
      |claims| == |items| && forall c :: c in claims ==> IsClaim(c)
  {
    if items != [] {
      ParsedClaimsAreClaims(items[..|items| - 1], render);
      ParsedClaimIsClaim(items[|items| - 1], render);
    }
  }

  lemma ClaimsFitSplits(front: seq<Claim>, last: Claim)
    ensures ClaimsFit(front + [last]) <==> ClaimsFit(front) && |last.text| <= MAX_SYNTHESIS_CHARS
  {
    var all := front + [last];
    if ClaimsFit(all) {
      assert all[|front|] == last;
      forall i | 0 <= i < |front| ensures |front[i].text| <= MAX_SYNTHESIS_CHARS {
        assert all[i] == front[i];
      }
    }
  }

  lemma ParseClaimsSnoc(front: seq<Claim>, last: Claim, render: Json -> string)
    ensures var r := ParseClaims(ClaimsJson(front).items, render);
      var l := ParseClaim(ClaimJson(last), render);
      ParseClaims(ClaimsJson(front + [last]).items, render) ==
        if r.Err? then r else if l.Err? then Err(l.error) else Ok(r.value + [l.value])
  {
    var items := ClaimsJson(front + [last]).items;
    assert items[..|front|] == ClaimsJson(front).items;
    assert items[|front|] == ClaimJson(last);
  }

  lemma {:induction false} ClaimsReparse(claims: seq<Claim>, render: Json -> string)
    requires forall c :: c in claims ==> IsClaim(c)
    ensures ClaimsFit(claims) ==> ParseClaims(ClaimsJson(claims).items, render) == Ok(claims)
    ensures !ClaimsFit(claims) ==> ParseClaims(ClaimsJson(claims).items, render).Err?
  {
    if claims != [] {
      var front, last := claims[..|claims| - 1], claims[|claims| - 1];
      assert claims == front + [last];
      ClaimsReparse(front, render);
      ClaimReparses(last, render);
      ParseClaimsSnoc(front, last, render);
      ClaimsFitSplits(front, last);
    }
  }

  /* ---- parse_structured_summary ---- */

  // A prose field with its cap on the raw text.
  function Prose(value: Json, cap: nat): Result<string> {
    if !value.JString? || Inline(value.s) == [] then Err("structured summary text must be a non-empty string")
    else if |value.s| > cap then Err("structured summary text is too long")
    else Ok(ProseLine(value.s))
  }

  // The first error, or the summary.
  function Combine(synthesis: Result<string>, status: Result<string>, timeline: Result<seq<string>>, attention: Result<seq<string>>,
                   decisions: Result<seq<string>>, deadlines: Result<seq<string>>, related: Result<seq<string>>,
                   attachments: Result<seq<string>>, claims: Result<seq<Claim>>): Result<Summary> {
    if synthesis.Err? then Err(synthesis.error)
    else if status.Err? then Err(status.error)
    else if timeline.Err? then Err(timeline.error)
    else if attention.Err? then Err(attention.error)
    else if decisions.Err? then Err(decisions.error)
    else if deadlines.Err? then Err(deadlines.error)
    else if related.Err? then Err(related.error)
    else if attachments.Err? then Err(attachments.error)
    else if claims.Err? then Err(claims.error)
    else Ok(Summary(synthesis.value, timeline.value, status.value, attention.value, decisions.value,
                    deadlines.value, related.value, attachments.value, claims.value))
  }

  // The nine fields, already looked up.
  function ParseFields(synthesis: Json, timeline: Json, status: Json, attention: Json, decisions: Json, deadlines: Json,
                       related: Json, attachments: Json, claims: Json, render: Json -> string): Result<Summary> {
    Combine(Prose(synthesis, MAX_SYNTHESIS_CHARS), Prose(status, MAX_STATUS_CHARS),
            StringList(timeline, "timeline", false), StringList(attention, "attention", true),
            StringList(decisions, "decisions", false), StringList(deadlines, "deadlines", false),
            StringList(related, "related_processes", false), StringList(attachments, "attachments", false),
            ClaimsOf(claims, render))
  }

  function Parse(payload: Json, render: Json -> string): Result<Summary> {
    if !payload.JObject? then Err("provider structured summary must be a JSON object")
    else if !(LEGACY_KEYS <= payload.fields.Keys <= REQUIRED_KEYS) then
      Err("provider structured summary keys do not match the contract")
    else
      var f := payload.fields;
      ParseFields(f["synthesis"], f["timeline"], f["current_status"], f["attention"], f["decisions"], f["deadlines"],
                  f["related_processes"], f["attachments"], if "claims" in f then f["claims"] else JArray([]), render)
  }

  function ToJson(s: Summary): Json {
    JObject(map[
      "synthesis" := JString(s.synthesis), "timeline" := Strings(s.timeline), "current_status" := JString(s.status),
      "attention" := Strings(s.attention), "decisions" := Strings(s.decisions), "deadlines" := Strings(s.deadlines),
      "related_processes" := Strings(s.related), "attachments" := Strings(s.attachments), "claims" := ClaimsJson(s.claims)])
  }

  // structured_summary_document_is_canonical, for the summary part of a document.
  predicate IsCanonical(summary: Json, render: Json -> string) {
    && summary.JObject? && summary.fields.Keys == REQUIRED_KEYS
    && Parse(summary, render).Ok? && ToJson(Parse(summary, render).value) == summary
  }

  // What the parser returns, apart from the caps.
  predicate IsNormal(s: Summary) {
    && IsProse(s.synthesis) && s.synthesis != [] && IsProse(s.status) && s.status != []
    && IsItemList(s.timeline, "timeline") && IsItemList(s.attention, "attention") && s.attention != []
    && IsItemList(s.decisions, "decisions") && IsItemList(s.deadlines, "deadlines")
    && IsItemList(s.related, "related_processes") && IsItemList(s.attachments, "attachments")
    && |s.claims| <= MAX_CLAIMS
    && forall c :: c in s.claims ==> IsClaim(c)
  }

  predicate Fits(s: Summary) {
    |s.synthesis| <= MAX_SYNTHESIS_CHARS && |s.status| <= MAX_STATUS_CHARS && ClaimsFit(s.claims)
  }

  lemma ProseIsNormal(value: Json, cap: nat)
    requires Prose(value, cap).Ok?
    ensures IsProse(Prose(value, cap).value) && Prose(value, cap).value != []
  {
    ProseNormalizes(value.s);
  }

  lemma FieldsAreNormal(synthesis: Json, timeline: Json, status: Json, attention: Json, decisions: Json, deadlines: Json,
                        related: Json, attachments: Json, claims: Json, render: Json -> string)
    requires ParseFields(synthesis, timeline, status, attention, decisions, deadlines, related, attachments, claims, render).Ok?
    ensures IsNormal(ParseFields(synthesis, timeline, status, attention, decisions, deadlines, related, attachments, claims, render).value)
  {
    ProseIsNormal(synthesis, MAX_SYNTHESIS_CHARS);
    ProseIsNormal(status, MAX_STATUS_CHARS);
    StringListNormalizes(timeline, "timeline", false);
    StringListNormalizes(attention, "attention", true);
    StringListNormalizes(decisions, "decisions", false);
    StringListNormalizes(deadlines, "deadlines", false);
    StringListNormalizes(related, "related_processes", false);
    StringListNormalizes(attachments, "attachments", false);
    ParsedClaimsAreClaims(claims.items, render);
  }

  lemma ParsedIsNormal(payload: Json, render: Json -> string)
    requires Parse(payload, render).Ok?
    ensures IsNormal(Parse(payload, render).value)
  {
    var f := payload.fields;
    FieldsAreNormal(f["synthesis"], f["timeline"], f["current_status"], f["attention"], f["decisions"], f["deadlines"],
                    f["related_processes"], f["attachments"], if "claims" in f then f["claims"] else JArray([]), render);
  }

  lemma ProseReparses(s: string, cap: nat)
    requires IsProse(s) && s != []
    ensures Prose(JString(s), cap) == if |s| <= cap then Ok(s) else Err("structured summary text is too long")
  {
    ProseNormalizes(s);
    InlineNormalizes(s);
  }

  lemma Lookups(s: Summary)
    ensures var f := ToJson(s).fields;
      && f.Keys == REQUIRED_KEYS
      && f["synthesis"] == JString(s.synthesis) && f["timeline"] == Strings(s.timeline)
      && f["current_status"] == JString(s.status) && f["attention"] == Strings(s.attention)
      && f["decisions"] == Strings(s.decisions) && f["deadlines"] == Strings(s.deadlines)
      && f["related_processes"] == Strings(s.related) && f["attachments"] == Strings(s.attachments)
      && f["claims"] == ClaimsJson(s.claims)
  {
  }

  lemma FieldsReparse(s: Summary, render: Json -> string)
    requires IsNormal(s)
    ensures var r := ParseFields(JString(s.synthesis), Strings(s.timeline), JString(s.status), Strings(s.attention),
      Strings(s.decisions), Strings(s.deadlines), Strings(s.related), Strings(s.attachments), ClaimsJson(s.claims), render);
      if Fits(s) then r == Ok(s) else r.Err?
  {
    ProseReparses(s.synthesis, MAX_SYNTHESIS_CHARS);
    ProseReparses(s.status, MAX_STATUS_CHARS);
    StringListOfItems(s.timeline, "timeline", false);
    StringListOfItems(s.attention, "attention", true);
    StringListOfItems(s.decisions, "decisions", false);
    StringListOfItems(s.deadlines, "deadlines", false);
    StringListOfItems(s.related, "related_processes", false);
    StringListOfItems(s.attachments, "attachments", false);
    ClaimsReparse(s.claims, render);
  }

  // Parsing the JSON of a summary parses its fields.
  lemma ParseOfJson(s: Summary, render: Json -> string)
    ensures Parse(ToJson(s), render) ==
      ParseFields(JString(s.synthesis), Strings(s.timeline), JString(s.status), Strings(s.attention),
        Strings(s.decisions), Strings(s.deadlines), Strings(s.related), Strings(s.attachments), ClaimsJson(s.claims), render)
  {
    Lookups(s);
    ParseOfFields(ToJson(s).fields, render);
  }

  lemma ParseOfFields(f: map<string, Json>, render: Json -> string)
    requires f.Keys == REQUIRED_KEYS
    ensures Parse(JObject(f), render) ==
      ParseFields(f["synthesis"], f["timeline"], f["current_status"], f["attention"], f["decisions"], f["deadlines"],
                  f["related_processes"], f["attachments"], f["claims"], render)
  {
  }

  lemma NormalReparses(s: Summary, render: Json -> string)
    requires IsNormal(s)
    ensures Fits(s) ==> Parse(ToJson(s), render) == Ok(s)
    ensures !Fits(s) ==> Parse(ToJson(s), render).Err?
  {
    ParseOfJson(s, render);
    FieldsReparse(s, render);
  }

  // Normalisation is a fixed point exactly when the guarded texts still fit their caps: then the
  // parsed summary parses to itself and its document is canonical, otherwise it is rejected.
  lemma NormalisationIsFixedPoint(payload: Json, render: Json -> string)
    requires Parse(payload, render).Ok?
    ensures var s := Parse(payload, render).value;
      && (Parse(ToJson(s), render) == Ok(s) <==> Fits(s))
      && (IsCanonical(ToJson(s), render) <==> Fits(s))
  {
    var s := Parse(payload, render).value;
    ParsedIsNormal(payload, render);
    CanonicalIsNormal(s, render);
    NormalReparses(s, render);
  }

  lemma StringsInjective(a: seq<string>, b: seq<string>)
    requires Strings(a) == Strings(b)
    ensures a == b
  {
    forall i | 0 <= i < |a| ensures a[i] == b[i] {
      assert Strings(a).items[i] == Strings(b).items[i];
    }
  }

  lemma ClaimsJsonInjective(a: seq<Claim>, b: seq<Claim>)
    requires ClaimsJson(a) == ClaimsJson(b)
    ensures a == b
  {
    forall i | 0 <= i < |a| ensures a[i] == b[i] {
      assert ClaimsJson(a).items[i] == ClaimsJson(b).items[i];
      ClaimLookups(a[i]);
      ClaimLookups(b[i]);
      StringsInjective(a[i].refs, b[i].refs);
    }
  }

  lemma ToJsonInjective(a: Summary, b: Summary)
    requires ToJson(a) == ToJson(b)
    ensures a == b
  {
    Lookups(a);
    Lookups(b);
    StringsInjective(a.timeline, b.timeline);
    StringsInjective(a.attention, b.attention);
    StringsInjective(a.decisions, b.decisions);
    StringsInjective(a.deadlines, b.deadlines);
    StringsInjective(a.related, b.related);
    StringsInjective(a.attachments, b.attachments);
    ClaimsJsonInjective(a.claims, b.claims);
  }

  // The canonical documents are exactly the normal forms that fit.
  lemma CanonicalIsNormal(s: Summary, render: Json -> string)
    ensures IsCanonical(ToJson(s), render) <==> IsNormal(s) && Fits(s)
  {
    Lookups(s);
    if IsCanonical(ToJson(s), render) {
      var t := Parse(ToJson(s), render).value;
      ToJsonInjective(s, t);
      ParsedIsNormal(ToJson(s), render);
      NormalReparses(s, render);
    }
    if IsNormal(s) && Fits(s) {
      NormalReparses(s, render);
    }
  }

  function Hashes(n: nat): string {
    seq(n, _ => '#')
  }

  lemma HashesAreGuarded(n: nat)
    requires 1 <= n <= MAX_SYNTHESIS_CHARS
    ensures Prose(JString(Hashes(n)), MAX_SYNTHESIS_CHARS) == Ok([WORD_JOINER] + Hashes(n))
  {
    assert IsInline(Hashes(n));
    InlineNormalizes(Hashes(n));
  }

  const Short := Summary("ok", [], "ok", ["ok"], [], [], [], [], [])

  lemma ShortIsNormal()
    ensures IsNormal(Short) && Fits(Short)
  {
    assert IsInline("ok");
  }

  lemma HashesParse(n: nat, render: Json -> string)
    requires 1 <= n <= MAX_SYNTHESIS_CHARS
    ensures Parse(ToJson(Short.(synthesis := Hashes(n))), render) == Ok(Short.(synthesis := [WORD_JOINER] + Hashes(n)))
  {
    HashesAreGuarded(n);
    ShortIsNormal();
    FieldsReparse(Short, render);
    OtherSynthesis(Short, Hashes(n), [WORD_JOINER] + Hashes(n), render);
  }

  lemma OtherSynthesis(s: Summary, text: string, prose: string, render: Json -> string)
    requires var r := ParseFields(JString(s.synthesis), Strings(s.timeline), JString(s.status), Strings(s.attention),
      Strings(s.decisions), Strings(s.deadlines), Strings(s.related), Strings(s.attachments), ClaimsJson(s.claims), render);
      r == Ok(s)
    requires Prose(JString(text), MAX_SYNTHESIS_CHARS) == Ok(prose)
    ensures Parse(ToJson(s.(synthesis := text)), render) == Ok(s.(synthesis := prose))
  {
    ParseOfJson(s.(synthesis := text), render);
    CombineOther(Prose(JString(s.synthesis), MAX_SYNTHESIS_CHARS), Prose(JString(s.status), MAX_STATUS_CHARS),
                 StringList(Strings(s.timeline), "timeline", false), StringList(Strings(s.attention), "attention", true),
                 StringList(Strings(s.decisions), "decisions", false), StringList(Strings(s.deadlines), "deadlines", false),
                 StringList(Strings(s.related), "related_processes", false),
                 StringList(Strings(s.attachments), "attachments", false), ClaimsOf(ClaimsJson(s.claims), render), s, prose);
  }

  lemma CombineOther(synthesis: Result<string>, status: Result<string>, timeline: Result<seq<string>>,
                     attention: Result<seq<string>>, decisions: Result<seq<string>>, deadlines: Result<seq<string>>,
                     related: Result<seq<string>>, attachments: Result<seq<string>>, claims: Result<seq<Claim>>,
                     s: Summary, prose: string)
    requires Combine(synthesis, status, timeline, attention, decisions, deadlines, related, attachments, claims) == Ok(s)
    ensures Combine(Ok(prose), status, timeline, attention, decisions, deadlines, related, attachments, claims)
            == Ok(s.(synthesis := prose))
  {
  }

  // A synthesis at the cap that starts like a heading: accepted once, rejected when parsed again.
  lemma GuardMayBreakTheCap(render: Json -> string)
    ensures var payload := ToJson(Short.(synthesis := Hashes(MAX_SYNTHESIS_CHARS)));
      Parse(payload, render).Ok? && !IsCanonical(ToJson(Parse(payload, render).value), render)
  {
    HashesParse(MAX_SYNTHESIS_CHARS, render);
    NormalisationIsFixedPoint(ToJson(Short.(synthesis := Hashes(MAX_SYNTHESIS_CHARS))), render);
  }
}
