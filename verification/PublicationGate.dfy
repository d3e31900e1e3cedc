/** The publication gate over reloaded claim evidence (claim_evidence_is_complete and
    claim_evidence_is_publishable in app/claim_evidence.py). */
module PublicationGate {
  import opened Wrappers
  import opened Text
  import opened SummaryOutput
  import opened SummaryDocument
  import opened MaterialClaims
  import opened ClaimVerification

  // Evidence as it is loaded: a claim with its sources in order.
  datatype ItemSource = ItemSource(ref: string, status: Status, reason: Option<string>, digest: Option<string>, span: Span)
  datatype Item = Item(
    id: string, cls: Option<Class>, text: string, refs: seq<string>, status: Status, reason: Option<string>,
    sources: seq<ItemSource>)

  /* ---- claim_evidence_is_complete ---- */

  predicate WellCited(refs: seq<string>) {
    refs != [] && Distinct(refs) && forall i :: 0 <= i < |refs| ==> IsRef(refs[i])
  }

  predicate IsDeclaration(c: Claim, expected: map<string, string>) {
    Strip(c.id) in expected && Strip(c.text) == expected[Strip(c.id)] && WellCited(c.refs)
  }

  // The first n claims are declarations about different fields.
  ghost predicate DeclaredSoFar(claims: seq<Claim>, n: nat, expected: map<string, string>)
    requires n <= |claims|
  {
    && (forall i :: 0 <= i < n ==> IsDeclaration(claims[i], expected))
    && (forall i, j :: 0 <= i < j < n ==> Strip(claims[i].id) != Strip(claims[j].id))
  }

  // The claims of the document itself: one for each material field, in its words, with references.
  ghost predicate IsDeclared(claims: seq<Claim>, expected: map<string, string>) {
    && DeclaredSoFar(claims, |claims|, expected)
    && forall id :: id in expected ==> exists i :: 0 <= i < |claims| && Strip(claims[i].id) == id
  }

  // The references by claim identifier.
  ghost predicate HoldsRefs(refs: map<string, seq<string>>, claims: seq<Claim>, n: nat)
    requires n <= |claims|
  {
    && (forall k :: 0 <= k < n ==> Strip(claims[k].id) in refs && refs[Strip(claims[k].id)] == claims[k].refs)
    && forall id :: id in refs ==> exists k :: 0 <= k < n && Strip(claims[k].id) == id
  }

  lemma DeclaredWhen(claims: seq<Claim>, expected: map<string, string>, refs: map<string, seq<string>>)
    requires DeclaredSoFar(claims, |claims|, expected) && HoldsRefs(refs, claims, |claims|)
    ensures IsDeclared(claims, expected) <==> refs.Keys == expected.Keys
  {
    assert refs.Keys <= expected.Keys;
    if IsDeclared(claims, expected) {
      forall id | id in expected ensures id in refs {
        var i :| 0 <= i < |claims| && Strip(claims[i].id) == id;
      }
    }
  }

  // _declared_claim_evidence_refs
  method DeclaredRefs(claims: seq<Claim>, expected: map<string, string>) returns (declared: Option<map<string, seq<string>>>)
    ensures declared.Some? <==> IsDeclared(claims, expected)
    ensures declared.Some? ==> HoldsRefs(declared.value, claims, |claims|)
  {
    var refs: map<string, seq<string>>, i := map[], 0;
    while i < |claims|
      invariant 0 <= i <= |claims|
      invariant DeclaredSoFar(claims, i, expected)
      invariant HoldsRefs(refs, claims, i)
    {
      var c := claims[i];
      DeclareStep(claims, i, expected, refs);
      if !IsDeclaration(c, expected) || Strip(c.id) in refs {
        return None;
      }
      HoldMore(refs, claims, i);
      refs := refs[Strip(c.id) := c.refs];
      i := i + 1;
    }
    DeclaredWhen(claims, expected, refs);
    if refs.Keys != expected.Keys {
      return None;
    }
    return Some(refs);
  }

  lemma DeclareStep(claims: seq<Claim>, n: nat, expected: map<string, string>, refs: map<string, seq<string>>)
    requires n < |claims| && DeclaredSoFar(claims, n, expected) && HoldsRefs(refs, claims, n)
    ensures DeclaredSoFar(claims, n + 1, expected) <==> IsDeclaration(claims[n], expected) && Strip(claims[n].id) !in refs
    ensures IsDeclared(claims, expected) ==> DeclaredSoFar(claims, n + 1, expected)
  {
    HeldIds(claims, n, refs, Strip(claims[n].id));
    DeclaredSnoc(claims, n, expected);
    DeclaredPrefix(claims, n + 1, expected);
  }

  lemma HeldIds(claims: seq<Claim>, n: nat, refs: map<string, seq<string>>, id: string)
    requires n <= |claims| && HoldsRefs(refs, claims, n)
    ensures id in refs <==> exists k :: 0 <= k < n && Strip(claims[k].id) == id
  {
  }

  lemma DeclaredSnoc(claims: seq<Claim>, n: nat, expected: map<string, string>)
    requires n < |claims| && DeclaredSoFar(claims, n, expected)
    ensures DeclaredSoFar(claims, n + 1, expected) <==>
      IsDeclaration(claims[n], expected) && !exists k :: 0 <= k < n && Strip(claims[k].id) == Strip(claims[n].id)
  {
  }

  lemma DeclaredPrefix(claims: seq<Claim>, n: nat, expected: map<string, string>)
    requires n <= |claims|
    ensures IsDeclared(claims, expected) ==> DeclaredSoFar(claims, n, expected)
  {
  }

  lemma HoldMore(refs: map<string, seq<string>>, claims: seq<Claim>, n: nat)
    requires n < |claims| && HoldsRefs(refs, claims, n) && Strip(claims[n].id) !in refs
    ensures HoldsRefs(refs[Strip(claims[n].id) := claims[n].refs], claims, n + 1)
  {
    var more := refs[Strip(claims[n].id) := claims[n].refs];
    forall id | id in more ensures exists k :: 0 <= k < n + 1 && Strip(claims[k].id) == id {
      if id in refs {
        var k :| 0 <= k < n && Strip(claims[k].id) == id;
      } else {
        assert Strip(claims[n].id) == id;
      }
    }
  }

  predicate IsItemOf(item: Item, expected: map<string, string>) {
    && Strip(item.id) in expected && Strip(item.text) == expected[Strip(item.id)]
    && (item.cls == None || item.cls == ClassOf(Strip(item.id))) && WellCited(item.refs)
  }

  // Some claim of the document has the identifier and the references of the item.
  ghost predicate Matches(claims: seq<Claim>, item: Item) {
    exists i :: 0 <= i < |claims| && Strip(claims[i].id) == Strip(item.id) && claims[i].refs == item.refs
  }

  ghost predicate AgreesSoFar(claims: seq<Claim>, items: seq<Item>, n: nat, expected: map<string, string>)
    requires n <= |items|
  {
    && (forall k :: 0 <= k < n ==> IsItemOf(items[k], expected) && Matches(claims, items[k]))
    && (forall k, l :: 0 <= k < l < n ==> Strip(items[k].id) != Strip(items[l].id))
  }

  // The stored evidence says the same as the claims of the document, field by field.
  ghost predicate Agrees(claims: seq<Claim>, items: seq<Item>, expected: map<string, string>) {
    && AgreesSoFar(claims, items, |items|, expected)
    && forall id :: id in expected ==> exists k :: 0 <= k < |items| && Strip(items[k].id) == id
  }

  ghost predicate IsComplete(doc: Json, items: seq<Item>, render: Json -> string) {
    IsDocument(doc, render)
    && var p := SummaryOf(doc, render); IsDeclared(p.claims, Expected(p)) && Agrees(p.claims, items, Expected(p))
  }

  method ClaimEvidenceIsComplete(doc: Json, items: seq<Item>, render: Json -> string) returns (ok: bool)
    ensures ok <==> IsComplete(doc, items, render)
  {
    if !IsDocument(doc, render) {
      return false;
    }
    var p := SummaryOf(doc, render);
    var expected := ExpectedMaterialClaims(p);
    var declared := DeclaredRefs(p.claims, expected);
    if declared.None? {
      return false;
    }
    ok := ItemsAgree(p.claims, items, expected, declared.value);
  }

  function IdsOf(items: seq<Item>, n: nat): set<string>
    requires n <= |items|
  {
    set k | 0 <= k < n :: Strip(items[k].id)
  }

  method ItemsAgree(claims: seq<Claim>, items: seq<Item>, expected: map<string, string>, declared: map<string, seq<string>>)
    returns (ok: bool)
    requires IsDeclared(claims, expected) && HoldsRefs(declared, claims, |claims|)
    ensures ok <==> Agrees(claims, items, expected)
  {
    var observed: set<string>, i := {}, 0;
    while i < |items|
      invariant 0 <= i <= |items|
      invariant AgreesSoFar(claims, items, i, expected)
      invariant observed == IdsOf(items, i)
    {
      var item := items[i];
      AgreeStep(claims, items, i, expected);
      if !IsItemOf(item, expected) || Strip(item.id) in observed {
        return false;
      }
      MatchesDeclared(claims, item, expected, declared);
      if item.refs != declared[Strip(item.id)] {
        return false;
      }
      observed := observed + {Strip(item.id)};
      i := i + 1;
    }
    AgreesWhen(claims, items, expected);
    ok := observed == expected.Keys;
  }

  lemma AgreeStep(claims: seq<Claim>, items: seq<Item>, n: nat, expected: map<string, string>)
    requires n < |items| && AgreesSoFar(claims, items, n, expected)
    ensures AgreesSoFar(claims, items, n + 1, expected) <==>
      (IsItemOf(items[n], expected) && Matches(claims, items[n]) && Strip(items[n].id) !in IdsOf(items, n))
    ensures Agrees(claims, items, expected) ==> AgreesSoFar(claims, items, n + 1, expected)
    ensures IdsOf(items, n + 1) == IdsOf(items, n) + {Strip(items[n].id)}
  {
    IdsOfSnoc(items, n);
    AgreeSnoc(claims, items, n, expected);
  }

  lemma IdsOfSnoc(items: seq<Item>, n: nat)
    requires n < |items|
    ensures IdsOf(items, n + 1) == IdsOf(items, n) + {Strip(items[n].id)}
    ensures Strip(items[n].id) in IdsOf(items, n) <==> exists k :: 0 <= k < n && Strip(items[k].id) == Strip(items[n].id)
  {
  }

  lemma AgreeSnoc(claims: seq<Claim>, items: seq<Item>, n: nat, expected: map<string, string>)
    requires n < |items| && AgreesSoFar(claims, items, n, expected)
    ensures AgreesSoFar(claims, items, n + 1, expected) <==>
      IsItemOf(items[n], expected) && Matches(claims, items[n])
      && !exists k :: 0 <= k < n && Strip(items[k].id) == Strip(items[n].id)
  {
  }

  lemma AgreesWhen(claims: seq<Claim>, items: seq<Item>, expected: map<string, string>)
    requires AgreesSoFar(claims, items, |items|, expected)
    ensures Agrees(claims, items, expected) <==> IdsOf(items, |items|) == expected.Keys
  {
    var ids := IdsOf(items, |items|);
    assert ids <= expected.Keys;
    assert forall id :: id in ids ==> exists k :: 0 <= k < |items| && Strip(items[k].id) == id;
    if Agrees(claims, items, expected) {
      forall id | id in expected ensures id in ids {
        var k :| 0 <= k < |items| && Strip(items[k].id) == id;
      }
    }
  }

  lemma MatchesDeclared(claims: seq<Claim>, item: Item, expected: map<string, string>, declared: map<string, seq<string>>)
    requires Strip(item.id) in expected && IsDeclared(claims, expected) && HoldsRefs(declared, claims, |claims|)
    ensures Strip(item.id) in declared
    ensures Matches(claims, item) <==> item.refs == declared[Strip(item.id)]
  {
    var i :| 0 <= i < |claims| && Strip(claims[i].id) == Strip(item.id);
  }

  /* ---- claim_evidence_is_publishable ---- */

  predicate IsDigest(s: string) {
    IsHex(s, 64)
  }

  predicate IsReason(reason: Option<string>) {
    reason.Some? && !IsBlank(reason.value)
  }

  predicate IsEvaluated(status: Status) {
    status != NotEvaluated
  }

  predicate ValidSource(s: ItemSource) {
    && s.status != Contradicted
    && (s.digest.Some? ==> IsDigest(s.digest.value))
    && (IsEvaluated(s.status) ==> IsReason(s.reason) && s.digest.Some?)
  }

  predicate ValidItem(item: Item) {
    && item.status != Contradicted
    && (IsEvaluated(item.status) ==> IsReason(item.reason))
    && (forall s :: s in item.sources ==> ValidSource(s))
    && (IsEvaluated(item.status) ==> exists s :: s in item.sources && IsEvaluated(s.status))
  }

  ghost predicate IsPublishable(doc: Json, row: ProcessRow, items: seq<Item>, render: Json -> string) {
    && Decodes(row) && IsComplete(doc, items, render) && IsOfProcess(doc, row, render)
    && forall item :: item in items ==> ValidItem(item)
  }

  method ClaimEvidenceIsPublishable(doc: Json, row: ProcessRow, items: seq<Item>, render: Json -> string) returns (ok: bool)
    ensures ok <==> IsPublishable(doc, row, items, render)
  {
    if !Decodes(row) {
      return false;
    }
    ok := ClaimEvidenceIsComplete(doc, items, render);
    if !ok || !IsOfProcess(doc, row, render) {
      return false;
    }
    ok := CheckItems(items);
  }

  method CheckItems(items: seq<Item>) returns (ok: bool)
    ensures ok <==> forall item :: item in items ==> ValidItem(item)
  {
    var i := 0;
    while i < |items|
      invariant 0 <= i <= |items|
      invariant forall k :: 0 <= k < i ==> ValidItem(items[k])
    {
      var valid := CheckItem(items[i]);
      if !valid {
        assert items[i] in items;
        return false;
      }
      i := i + 1;
    }
    return true;
  }

  method CheckItem(item: Item) returns (ok: bool)
    ensures ok <==> ValidItem(item)
  {
    if item.status == Contradicted || (IsEvaluated(item.status) && !IsReason(item.reason)) {
      return false;
    }
    var seen, i := false, 0;
    while i < |item.sources|
      invariant 0 <= i <= |item.sources|
      invariant forall k :: 0 <= k < i ==> ValidSource(item.sources[k])
      invariant seen <==> exists k :: 0 <= k < i && IsEvaluated(item.sources[k].status)
    {
      if !ValidSource(item.sources[i]) {
        assert item.sources[i] in item.sources;
        return false;
      }
      seen := seen || IsEvaluated(item.sources[i].status);
      i := i + 1;
    }
    assert seen <==> exists s :: s in item.sources && IsEvaluated(s.status);
    return !IsEvaluated(item.status) || seen;
  }

  // What the gate objects to in a source: that it contradicts, a digest that is none, and a verdict
  // without a reason or without a digest.
  predicate IsUnfit(s: ItemSource) {
    || s.status == Contradicted || (s.digest.Some? && !IsHex(s.digest.value, 64))
    || (s.status in {Supported, Insufficient} && (s.reason == None || IsBlank(s.reason.value) || s.digest == None))
  }

  // An item is refused if it is contradicted, for a verdict without a reason or without a source
  // that was evaluated, or for one of its sources, and for nothing else.
  lemma RefusedItems(item: Item)
    ensures !ValidItem(item) <==>
      || item.status == Contradicted
      || (item.status in {Supported, Insufficient} && (item.reason == None || IsBlank(item.reason.value)))
      || (item.status in {Supported, Insufficient} && forall s :: s in item.sources ==> s.status == NotEvaluated)
      || (exists s :: s in item.sources && IsUnfit(s))
  {
    forall s | s in item.sources ensures ValidSource(s) <==> !IsUnfit(s) {
    }
  }

  // Claim i and item j are both about the slot, in its words and with the same references.
  ghost predicate Covers(claims: seq<Claim>, slot: Slot, i: nat, items: seq<Item>, j: nat) {
    && i < |claims| && j < |items|
    && Strip(claims[i].id) == slot.0 == Strip(items[j].id)
    && Strip(claims[i].text) == slot.1 == Strip(items[j].text)
    && claims[i].refs == items[j].refs && claims[i].refs != []
  }

  lemma SlotIsCovered(claims: seq<Claim>, items: seq<Item>, expected: map<string, string>, slot: Slot) returns (i: nat, j: nat)
    requires IsDeclared(claims, expected) && Agrees(claims, items, expected)
    requires slot.0 in expected && expected[slot.0] == slot.1
    ensures Covers(claims, slot, i, items, j)
  {
    j :| 0 <= j < |items| && Strip(items[j].id) == slot.0;
    assert Matches(claims, items[j]);
    i :| 0 <= i < |claims| && Strip(claims[i].id) == Strip(items[j].id) && claims[i].refs == items[j].refs;
    assert IsDeclaration(claims[i], expected) && IsItemOf(items[j], expected);
  }

  // What passing the gate means: every material field has exactly one claim in the document and
  // exactly one stored item, both in the words of the field and with the same references, and
  // nothing stored is contradicted.
  lemma PublishableMeans(doc: Json, row: ProcessRow, items: seq<Item>, render: Json -> string, k: nat) returns (i: nat, j: nat)
    requires IsPublishable(doc, row, items, render) && k < |Slots(SummaryOf(doc, render))|
    ensures var p := SummaryOf(doc, render);
      && Covers(p.claims, Slots(p)[k], i, items, j)
      && (forall i' :: 0 <= i' < |p.claims| && Strip(p.claims[i'].id) == Slots(p)[k].0 ==> i' == i)
      && forall j' :: 0 <= j' < |items| && Strip(items[j'].id) == Slots(p)[k].0 ==> j' == j
    ensures forall item :: item in items ==> item.status != Contradicted
    ensures forall item, s :: item in items && s in item.sources ==> s.status != Contradicted
  {
    var p := SummaryOf(doc, render);
    ExpectedIsSlots(p);
    i, j := SlotIsCovered(p.claims, items, Expected(p), Slots(p)[k]);
  }

  // The same, field by field: behind the gate each of the eight fields of the summary, and each item
  // of its lists, has its claim and its stored item, and there is no other claim or item.
  lemma PublishableFields(doc: Json, row: ProcessRow, items: seq<Item>, render: Json -> string, id: string, text: string)
    returns (i: nat, j: nat)
    requires IsPublishable(doc, row, items, render) && IsField(SummaryOf(doc, render), id, text)
    ensures Covers(SummaryOf(doc, render).claims, (id, text), i, items, j)
    ensures Distinct(items[j].refs) && (forall k :: 0 <= k < |items[j].refs| ==> IsRef(items[j].refs[k]))
    ensures items[j].cls == None || items[j].cls == ClassOf(id)
    ensures forall i' :: 0 <= i' < |SummaryOf(doc, render).claims| && Strip(SummaryOf(doc, render).claims[i'].id) == id ==> i' == i
    ensures forall j' :: 0 <= j' < |items| && Strip(items[j'].id) == id ==> j' == j
  {
    var p := SummaryOf(doc, render);
    ExpectedIsFields(p, id, text);
    i, j := SlotIsCovered(p.claims, items, Expected(p), (id, text));
  }

  lemma PublishableOnlyFields(doc: Json, row: ProcessRow, items: seq<Item>, render: Json -> string, j: nat)
    requires IsPublishable(doc, row, items, render) && j < |items|
    ensures IsField(SummaryOf(doc, render), Strip(items[j].id), Strip(items[j].text))
  {
    var p := SummaryOf(doc, render);
    assert IsItemOf(items[j], Expected(p));
    ExpectedIsFields(p, Strip(items[j].id), Strip(items[j].text));
  }
}
