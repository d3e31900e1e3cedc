/** What parse_structured_summary accepts and what it returns (app/summary_output.py), field by
    field and not only for summaries that are in normal form already. */
module ParsedSummary {
  import opened Wrappers
  import opened Text
  import opened SummaryOutput

  /* ---- One text ---- */

  // Single spaces between the words, and the word joiner before what would read as markup.
  ghost predicate IsLineOf(line: string, text: string) {
    exists t: string :: IsInline(t) && Words(t) == Words(text)
      && line == if t != [] && (t[0] in "#<`" || (|t| >= 2 && t[..2] in {"- ", "* "})) then ['\U{2060}'] + t else t
  }

  lemma LineIs(text: string)
    ensures IsLineOf(ProseLine(text), text)
  {
    var t := Inline(text);
    InlineNormalizes(text);
    InlineKeepsWords(text);
    assert |t| >= 2 ==> t[..2] == [t[0], t[1]];
    assert IsInline(t) && Words(t) == Words(text);
  }

  // str(value or ""): the values that Python takes for false, and any other.
  lemma InlineOfMeans(value: Json, render: Json -> string)
    ensures value in {JNull, JBool(false), JNumber(0.0), JString(""), JArray([]), JObject(map[])} ==> InlineOf(value, render) == ""
    ensures value !in {JNull, JBool(false), JNumber(0.0), JString(""), JArray([]), JObject(map[])} ==>
      Words(InlineOf(value, render)) == Words(if value.JString? then value.s else render(value))
    ensures IsInline(InlineOf(value, render))
  {
    InlineNormalizes(if !value.Truthy() then "" else if value.JString? then value.s else render(value));
    if value !in {JNull, JBool(false), JNumber(0.0), JString(""), JArray([]), JObject(map[])} {
      InlineKeepsWords(if value.JString? then value.s else render(value));
    }
  }

  /* ---- What is accepted ---- */

  ghost predicate IsText(value: Json, cap: nat) {
    value.JString? && !IsBlank(value.s) && |value.s| <= cap
  }

  ghost predicate AreTexts(value: Json, most: nat) {
    value.JArray? && |value.items| <= most
    && forall i :: 0 <= i < |value.items| ==> value.items[i].JString? && |ProseLine(value.items[i].s)| <= 2000
  }

  ghost predicate AreAcceptedRefs(refs: Json) {
    && refs.JArray? && 1 <= |refs.items| <= 32
    && (forall i :: 0 <= i < |refs.items| ==> refs.items[i].JString? && !IsBlank(refs.items[i].s))
    && forall i, j :: 0 <= i < j < |refs.items| ==> Inline(refs.items[i].s) != Inline(refs.items[j].s)
  }

  ghost predicate IsAcceptedClaim(item: Json, render: Json -> string) {
    && item.JObject? && item.fields.Keys == {"claim_id", "text", "evidence_refs"}
    && 1 <= |InlineOf(item.fields["claim_id"], render)| <= 64
    && IsText(item.fields["text"], 6000) && AreAcceptedRefs(item.fields["evidence_refs"])
  }

  ghost predicate AreAcceptedClaims(claims: Json, render: Json -> string) {
    claims.JArray? && |claims.items| <= 96 && forall i :: 0 <= i < |claims.items| ==> IsAcceptedClaim(claims.items[i], render)
  }

  ghost predicate HasItsKeys(payload: Json) {
    && payload.JObject?
    && {"synthesis", "timeline", "current_status", "attention", "decisions", "deadlines", "related_processes", "attachments"}
       <= payload.fields.Keys
    && forall k :: k in payload.fields && k != "claims" ==>
         k in {"synthesis", "timeline", "current_status", "attention", "decisions", "deadlines", "related_processes", "attachments"}
  }

  ghost predicate IsAccepted(payload: Json, render: Json -> string) {
    && HasItsKeys(payload)
    && var f := payload.fields;
       && IsText(f["synthesis"], 6000) && IsText(f["current_status"], 4000)
       && AreTexts(f["timeline"], 24) && AreTexts(f["attention"], 12) && AreTexts(f["decisions"], 16)
       && AreTexts(f["deadlines"], 12) && AreTexts(f["related_processes"], 12) && AreTexts(f["attachments"], 12)
       && (exists i :: 0 <= i < |f["attention"].items| && !IsBlank(f["attention"].items[i].s))
       && ("claims" in f ==> AreAcceptedClaims(f["claims"], render))
  }

  /* ---- What is returned ---- */

  // The items that are not blank, each as its line, in their order: said of one item and of two
  // lists in a row.
  lemma ItemIs(item: Json)
    requires item.JString?
    ensures ProseItems([item]) == if IsBlank(item.s) then [] else [ProseLine(item.s)]
  {
    InlineKeepsWords(item.s);
    assert [item][1..] == [];
    assert ProseItems([]) == [];
  }

  lemma {:induction false} ItemsAdd(items: seq<Json>, more: seq<Json>)
    requires AllStrings(items) && AllStrings(more)
    ensures AllStrings(items + more) && ProseItems(items + more) == ProseItems(items) + ProseItems(more)
  {
    if items == [] {
      assert items + more == more;
    } else {
      ItemsAdd(items[1..], more);
      assert (items + more)[1..] == items[1..] + more;
    }
  }

  ghost predicate AreKept(value: Json, lines: seq<string>) {
    value.JArray? && AllStrings(value.items) && lines == ProseItems(value.items)
  }

  ghost predicate IsParsedClaim(item: Json, c: Claim, render: Json -> string) {
    && item.JObject? && {"claim_id", "text", "evidence_refs"} <= item.fields.Keys
    && item.fields["text"].JString? && item.fields["evidence_refs"].JArray? && AllStrings(item.fields["evidence_refs"].items)
    && c.id == InlineOf(item.fields["claim_id"], render) && c.text == ProseLine(item.fields["text"].s)
    && var refs := item.fields["evidence_refs"].items;
       |c.refs| == |refs| && forall i :: 0 <= i < |refs| ==> c.refs[i] == Inline(refs[i].s)
  }

  ghost predicate AreParsedClaims(items: seq<Json>, claims: seq<Claim>, render: Json -> string) {
    |claims| == |items| && forall i :: 0 <= i < |items| ==> IsParsedClaim(items[i], claims[i], render)
  }

  // Every field of the result comes from the field of its own name.
  ghost predicate IsParsed(payload: Json, s: Summary, render: Json -> string) {
    && HasItsKeys(payload)
    && var f := payload.fields;
       && f["synthesis"].JString? && s.synthesis == ProseLine(f["synthesis"].s)
       && f["current_status"].JString? && s.status == ProseLine(f["current_status"].s)
       && AreKept(f["timeline"], s.timeline) && AreKept(f["attention"], s.attention) && AreKept(f["decisions"], s.decisions)
       && AreKept(f["deadlines"], s.deadlines) && AreKept(f["related_processes"], s.related)
       && AreKept(f["attachments"], s.attachments)
       && AreParsedClaims(if "claims" in f && f["claims"].JArray? then f["claims"].items else [], s.claims, render)
  }

  /* ---- The parser ---- */

  lemma TextIs(value: Json, cap: nat)
    ensures Prose(value, cap).Ok? <==> IsText(value, cap)
    ensures IsText(value, cap) ==> Prose(value, cap) == Ok(ProseLine(value.s))
  {
    if value.JString? {
      InlineKeepsWords(value.s);
    }
  }

  ghost predicate AllShort(items: seq<Json>)
    requires AllStrings(items)
  {
    forall i :: 0 <= i < |items| ==> |ProseLine(items[i].s)| <= 2000
  }

  ghost predicate HasText(items: seq<Json>)
    requires AllStrings(items)
  {
    exists i :: 0 <= i < |items| && !IsBlank(items[i].s)
  }

  lemma FirstItem(items: seq<Json>)
    requires items != [] && AllStrings(items)
    ensures AllShort(items) <==> |ProseLine(items[0].s)| <= 2000 && AllShort(items[1..])
    ensures HasText(items) <==> !IsBlank(items[0].s) || HasText(items[1..])
  {
    assert forall i :: 0 < i < |items| ==> items[i] == items[1..][i - 1];
  }

  lemma {:induction false} LinesAreShort(items: seq<Json>)
    requires AllStrings(items)
    ensures AllShort(items) <==> forall k :: 0 <= k < |ProseItems(items)| ==> |ProseItems(items)[k]| <= 2000
    ensures HasText(items) <==> ProseItems(items) != []
  {
    if items != [] {
      LinesAreShort(items[1..]);
      FirstItem(items);
      InlineKeepsWords(items[0].s);
      var lines, rest := ProseItems(items), ProseItems(items[1..]);
      assert lines == if IsBlank(items[0].s) then rest else [ProseLine(items[0].s)] + rest;
      assert IsBlank(items[0].s) ==> ProseLine(items[0].s) == [];
      OneMoreLine(lines, rest, ProseLine(items[0].s), IsBlank(items[0].s));
      assert |lines| == |rest| + if IsBlank(items[0].s) then 0 else 1;
      assert HasText(items) <==> |lines| > 0;
    }
  }

  lemma OneMoreLine(lines: seq<string>, rest: seq<string>, line: string, blank: bool)
    requires lines == (if blank then rest else [line] + rest) && (blank ==> line == [])
    ensures (forall k :: 0 <= k < |lines| ==> |lines[k]| <= 2000) <==> |line| <= 2000 && forall k :: 0 <= k < |rest| ==> |rest[k]| <= 2000
  {
    if !blank {
      assert lines[0] == line;
      assert forall k :: 0 < k < |lines| ==> lines[k] == rest[k - 1];
      assert forall k :: 0 <= k < |rest| ==> rest[k] == lines[k + 1];
    }
  }

  lemma ListIs(value: Json, key: string, nonempty: bool)
    ensures StringList(value, key, nonempty).Ok? <==>
      AreTexts(value, MaxItems(key)) && (nonempty ==> exists i :: 0 <= i < |value.items| && !IsBlank(value.items[i].s))
    ensures StringList(value, key, nonempty).Ok? ==> AreKept(value, StringList(value, key, nonempty).value)
  {
    if value.JArray? && AllStrings(value.items) {
      LinesAreShort(value.items);
      var lines := ProseItems(value.items);
      assert AllShort(value.items) <==> !exists i :: 0 <= i < |lines| && |lines[i]| > MAX_ITEM_CHARS;
      assert HasText(value.items) <==> exists i :: 0 <= i < |value.items| && !IsBlank(value.items[i].s);
      assert AreTexts(value, MaxItems(key)) <==> |value.items| <= MaxItems(key) && AllShort(value.items);
    }
  }

  lemma RefsAre(refs: Json)
    ensures ParseRefs(refs).Ok? <==> AreAcceptedRefs(refs)
    ensures AreAcceptedRefs(refs) ==> ParseRefs(refs) == Ok(seq(|refs.items|, i requires 0 <= i < |refs.items| => Inline(refs.items[i].s)))
  {
    if refs.JArray? && AllStrings(refs.items) {
      forall i | 0 <= i < |refs.items| ensures InlineAll(refs.items)[i] == [] <==> IsBlank(refs.items[i].s) {
        InlineKeepsWords(refs.items[i].s);
      }
    }
  }

  lemma ClaimIs(item: Json, render: Json -> string)
    ensures ParseClaim(item, render).Ok? <==> IsAcceptedClaim(item, render)
    ensures ParseClaim(item, render).Ok? ==> IsParsedClaim(item, ParseClaim(item, render).value, render)
  {
    if item.JObject? && item.fields.Keys == CLAIM_KEYS {
      RefsAre(item.fields["evidence_refs"]);
      if item.fields["text"].JString? {
        InlineKeepsWords(item.fields["text"].s);
      }
    }
  }

  lemma {:induction false} ClaimsAre(items: seq<Json>, render: Json -> string)
    ensures ParseClaims(items, render).Ok? <==> forall i :: 0 <= i < |items| ==> IsAcceptedClaim(items[i], render)
    ensures ParseClaims(items, render).Ok? ==> AreParsedClaims(items, ParseClaims(items, render).value, render)
  {
    if items != [] {
      var n := |items| - 1;
      ClaimsAre(items[..n], render);
      ClaimIs(items[n], render);
      AcceptedSoFar(items, n, render);
      var front, last := ParseClaims(items[..n], render), ParseClaim(items[n], render);
      if front.Ok? && last.Ok? {
        ParsedSoFar(items, n, front.value, last.value, render);
      }
    }
  }

  lemma AcceptedSoFar(items: seq<Json>, n: nat, render: Json -> string)
    requires |items| == n + 1
    ensures (forall i :: 0 <= i < |items| ==> IsAcceptedClaim(items[i], render)) <==>
      IsAcceptedClaim(items[n], render) && forall i :: 0 <= i < |items[..n]| ==> IsAcceptedClaim(items[..n][i], render)
  {
    assert forall i :: 0 <= i < n ==> items[..n][i] == items[i];
  }

  lemma ParsedSoFar(items: seq<Json>, n: nat, front: seq<Claim>, last: Claim, render: Json -> string)
    requires |items| == n + 1 && AreParsedClaims(items[..n], front, render) && IsParsedClaim(items[n], last, render)
    ensures AreParsedClaims(items, front + [last], render)
  {
    assert forall i :: 0 <= i < n ==> items[..n][i] == items[i];
  }

  lemma ClaimListIs(value: Json, render: Json -> string)
    ensures ClaimsOf(value, render).Ok? <==> AreAcceptedClaims(value, render)
    ensures ClaimsOf(value, render).Ok? ==> value.JArray? && AreParsedClaims(value.items, ClaimsOf(value, render).value, render)
  {
    if value.JArray? {
      ClaimsAre(value.items, render);
    }
  }

  lemma KeysAre(payload: Json)
    requires payload.JObject?
    ensures HasItsKeys(payload) <==> LEGACY_KEYS <= payload.fields.Keys <= REQUIRED_KEYS
  {
  }

  // The parser accepts exactly these payloads, and returns from each field what belongs there.
  lemma ParserMeans(payload: Json, render: Json -> string)
    ensures Parse(payload, render).Ok? <==> IsAccepted(payload, render)
    ensures Parse(payload, render).Ok? ==> IsParsed(payload, Parse(payload, render).value, render)
  {
    if payload.JObject? {
      KeysAre(payload);
      if HasItsKeys(payload) {
        FieldsMean(payload, render);
      }
    }
  }

  lemma FieldsMean(payload: Json, render: Json -> string)
    requires HasItsKeys(payload)
    ensures Parse(payload, render).Ok? <==> IsAccepted(payload, render)
    ensures Parse(payload, render).Ok? ==> IsParsed(payload, Parse(payload, render).value, render)
  {
    var f := payload.fields;
    KeysAre(payload);
    TextIs(f["synthesis"], 6000);
    TextIs(f["current_status"], 4000);
    ListIs(f["timeline"], "timeline", false);
    ListIs(f["attention"], "attention", true);
    ListIs(f["decisions"], "decisions", false);
    ListIs(f["deadlines"], "deadlines", false);
    ListIs(f["related_processes"], "related_processes", false);
    ListIs(f["attachments"], "attachments", false);
    ClaimListIs(if "claims" in f then f["claims"] else JArray([]), render);
  }
}
