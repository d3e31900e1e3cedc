/** A summary that validator and verifier accept and the publication gate refuses: its synthesis is
    borne out by the process and also cites an attachment of which the text budget left nothing. */
module EmptyExcerpt {
  import opened Wrappers
  import opened Text
  import opened SummaryOutput
  import opened SummaryDocument
  import opened MaterialClaims
  import opened ClaimVerification
  import opened PublicationGate
  import opened ClaimEvidence
  import opened EvidenceAgreement

  function Zeros(n: nat): string {
    seq(n, _ => '0')
  }

  function ProcessSource(): string { ProcessRef(Zeros(32)) }
  function ChunkSource(): string { AttachmentRef(Zeros(32)) }

  const Synthesis := Claim("synthesis", "S", [ProcessSource(), ChunkSource()])
  const Status := Claim("current_status", "E", [ProcessSource()])
  const Point := Claim(Key("attention", 0), "A", [ProcessSource()])

  const Brief := Summary("S", [], "E", ["A"], [], [], [], [], [Synthesis, Status, Point])

  // The synthesis holds one fact, the number of movements, which only the process states.
  function FactsOf(text: string): Facts {
    Facts(text, {}, {}, {}, {}, {}, if text == "S" then {1} else {})
  }

  function Sources(): map<string, Evidence> {
    map[ProcessSource() := Evidence(Process, "P", {}, {}, {}, {}, {1}, {}, NoSpan),
        ChunkSource() := Evidence(Attachment, "", {}, {}, {}, {}, {}, {}, NoSpan)]
  }

  function Accepted(): Run {
    Run(Brief, Selection(ProcessSource(), [], [Cited(ChunkSource(), Zeros(32))]), 0, Zeros(32), Sources(),
        FactsOf, _ => Zeros(64))
  }

  predicate IsPlain(s: string) {
    s != [] && forall i :: 0 <= i < |s| ==> !IsSpace(s[i])
  }

  lemma RefsAreRefs()
    ensures IsHex(Zeros(32), 32) && IsRef(ProcessSource()) && IsRef(ChunkSource()) && ProcessSource() != ChunkSource()
    ensures IsPlain(ProcessSource()) && IsPlain(ChunkSource())
  {
    RefsOfUuids(Zeros(32));
    forall i | 0 <= i < 34 ensures !IsSpace(ProcessSource()[i]) && !IsSpace(ChunkSource()[i]) {
      assert i >= 2 ==> ProcessSource()[i] == '0' && ChunkSource()[i] == '0';
    }
    assert ProcessSource()[0] == 'p' && ChunkSource()[0] == 'a';
  }

  lemma PlainTogether(a: string, b: string, c: string)
    requires IsPlain(a) && IsPlain(b) && IsPlain(c)
    ensures IsPlain(a + b + c)
  {
  }

  lemma IdsArePlain()
    ensures IsPlain(Synthesis.id) && IsPlain(Status.id) && IsPlain(Point.id)
    ensures |Synthesis.id| == 9 && |Status.id| == 14 && |Point.id| == 11
  {
    assert Decimal(0) == [Digit(0)];
    PlainTogether("attention", ":", Decimal(0));
  }

  lemma AttentionNeedsNoFacts(id: string)
    requires Prefix(id) == "attention"
    ensures !IsIntrinsicallyMaterial(ClassOf(id))
  {
    assert ClassOf(id) == Some(AttentionClass);
  }

  lemma KeyNeedsNoFacts(field: string, id: string)
    requires field == "attention" && id == Key(field, 0)
    ensures !IsIntrinsicallyMaterial(ClassOf(id))
  {
    assert !HasColon(field);
    PrefixOfKey(field, Decimal(0));
    AttentionNeedsNoFacts(id);
  }

  lemma StatusNeedsNoFacts(id: string)
    requires id == "current_status"
    ensures !IsIntrinsicallyMaterial(ClassOf(id))
  {
    PrefixOfAll(id);
  }

  lemma PlainClaim(c: Claim)
    requires IsPlain(c.id) && |c.id| <= MAX_CLAIM_ID_CHARS && IsPlain(c.text) && |c.text| == 1 && !NeedsGuard(c.text)
    requires 1 <= |c.refs| <= MAX_REFS && Distinct(c.refs) && forall i :: 0 <= i < |c.refs| ==> IsPlain(c.refs[i])
    ensures IsClaim(c)
  {
  }

  lemma ClaimsAreClaims()
    ensures forall c :: c in Brief.claims ==> IsClaim(c)
  {
    RefsAreRefs();
    IdsArePlain();
    PlainClaim(Synthesis);
    PlainClaim(Status);
    PlainClaim(Point);
  }

  lemma BriefIsNormal()
    ensures IsNormal(Brief) && Fits(Brief)
  {
    ClaimsAreClaims();
  }

  lemma BriefSlots()
    ensures Slots(Brief) == [("synthesis", "S"), ("current_status", "E"), (Key("attention", 0), "A")]
  {
    var fields := Fields(Brief);
    assert forall n :: 2 <= n < 6 ==> fields[n].1 == [];
    OnlySecond(fields, 6);
    assert fields[..6] == fields;
  }

  // Empty fields add no slot.
  lemma {:induction false} OnlySecond(fields: seq<(string, seq<string>)>, n: nat)
    requires 2 <= n <= |fields| && fields[0].1 == [] && fields[1] == ("attention", ["A"])
    requires forall i :: 2 <= i < n ==> fields[i].1 == []
    ensures ListSlots(fields[..n]) == [(Key("attention", 0), "A")]
  {
    assert fields[..n][..n - 1] == fields[..n - 1];
    if n == 2 {
      assert fields[..1][..0] == [];
      assert ListSlots(fields[..1]) == [];
      assert ListSlots(fields[..2]) == ListSlots(fields[..1]) + FieldSlots("attention", ["A"]);
    } else {
      OnlySecond(fields, n - 1);
    }
  }

  lemma BriefExpects()
    ensures forall i :: 0 <= i < 3 ==> Brief.claims[i].id in Expected(Brief) && Expected(Brief)[Brief.claims[i].id] == Brief.claims[i].text
    ensures forall id :: id in Expected(Brief) ==> exists i :: 0 <= i < 3 && Brief.claims[i].id == id
    ensures forall i, j :: 0 <= i < j < 3 ==> Brief.claims[i].id != Brief.claims[j].id
  {
    SlotsOfClaims(Slots(Brief), Brief.claims);
    SlotsAreDistinct(Brief);
    ExpectedIsSlots(Brief);
    forall id | id in Expected(Brief) ensures exists i :: 0 <= i < 3 && Brief.claims[i].id == id {
      var k :| 0 <= k < |Slots(Brief)| && Slots(Brief)[k].0 == id;
      assert Brief.claims[k].id == id;
    }
  }

  lemma SlotsOfClaims(slots: seq<Slot>, claims: seq<Claim>)
    requires slots == Slots(Brief) && claims == Brief.claims
    ensures |slots| == 3 && |claims| == 3
    ensures forall k :: 0 <= k < 3 ==> slots[k].0 == claims[k].id && slots[k].1 == claims[k].text
  {
    BriefSlots();
    assert slots[0].0 == Synthesis.id && slots[1].0 == Status.id && slots[2].0 == Point.id;
  }

  lemma SourcesAreCitable()
    ensures IsBuilt(Accepted().sel, Accepted().version)
    ensures ProcessSource() in Catalog(Accepted().sel) && ChunkSource() in Catalog(Accepted().sel)
  {
    RefsAreRefs();
    var chunk := Cited(ChunkSource(), Zeros(32));
    CatalogMeans(Accepted().sel, Accepted().version);
    assert chunk in Accepted().sel.steps + Accepted().sel.chunks;
  }

  lemma ClaimIsCovered(i: nat)
    requires i < 3
    ensures ClaimFits(Brief.claims[i], Expected(Brief), Catalog(Accepted().sel))
    ensures Strip(Brief.claims[i].id) == Brief.claims[i].id
  {
    var c := Brief.claims[i];
    assert IsClaim(c) by {
      ClaimsAreClaims();
      assert c in Brief.claims;
    }
    NormalClaim(c);
    BriefExpects();
    SourcesAreCitable();
    RefsAreRefs();
    forall k | 0 <= k < |c.refs| ensures Strip(c.refs[k]) == c.refs[k] {
      assert Stripped(c.refs)[k] == c.refs[k];
    }
  }

  lemma BriefIsCovered()
    ensures IsCovered(Brief, Brief.claims, Catalog(Accepted().sel))
  {
    BriefExpects();
    forall i | 0 <= i < 3
      ensures ClaimFits(Brief.claims[i], Expected(Brief), Catalog(Accepted().sel)) && Strip(Brief.claims[i].id) == Brief.claims[i].id
    {
      ClaimIsCovered(i);
    }
  }

  /* ---- Accepted, and yet not publishable ---- */

  lemma SynthesisIsAccepted(m: MaterialClaim)
    requires m.text == "S" && m.refs == [ProcessSource(), ChunkSource()]
    ensures !IsRefused(Verify(m, Sources(), FactsOf, Accepted().sha))
    ensures !HasExcerpts(m, Sources(), FactsOf)
  {
    RefsAreRefs();
    var cited := CitedEvidence(m.refs, Sources());
    AcceptedExactly(m, Sources(), FactsOf, Accepted().sha);
    assert m.refs[0] in m.refs && Sources()[ProcessSource()] in cited;
    assert 1 in AllCounts(cited);
    assert !HasExcerpt(FactsOf("S"), m.refs[1], Sources());
  }

  lemma FactlessIsAccepted(m: MaterialClaim)
    requires m.text != "S" && !IsIntrinsicallyMaterial(m.cls)
    ensures !IsRefused(Verify(m, Sources(), FactsOf, Accepted().sha))
  {
    AcceptedExactly(m, Sources(), FactsOf, Accepted().sha);
  }

  lemma RenderedAsIs(i: nat)
    requires i < 3
    ensures var c := Brief.claims[i]; Accepted().Claims()[i] == MaterialClaim(c.id, ClassOf(c.id), c.text, c.refs)
  {
    assert IsClaim(Brief.claims[i]) by {
      ClaimsAreClaims();
      assert Brief.claims[i] in Brief.claims;
    }
    NormalClaim(Brief.claims[i]);
  }

  lemma ClaimIsAccepted(i: nat)
    requires i < 3
    ensures !IsRefused(Accepted().Verified(Accepted().Claims()[i]))
    ensures i == 0 ==> !HasExcerpts(Accepted().Claims()[i], Sources(), FactsOf)
  {
    RenderedAsIs(i);
    if i == 0 {
      SynthesisIsAccepted(Accepted().Claims()[i]);
    } else {
      if i == 1 {
        StatusNeedsNoFacts(Status.id);
      } else {
        KeyNeedsNoFacts("attention", Point.id);
      }
      FactlessIsAccepted(Accepted().Claims()[i]);
    }
  }

  lemma ClaimsAreAccepted()
    ensures forall m :: m in Accepted().Claims() ==> !IsRefused(Accepted().Verified(m))
    ensures !AllExcerpts(Accepted())
  {
    var claims := Accepted().Claims();
    forall m | m in claims ensures !IsRefused(Accepted().Verified(m)) {
      var i :| 0 <= i < |claims| && claims[i] == m;
      ClaimIsAccepted(i);
    }
    ClaimIsAccepted(0);
    assert claims[0] in claims;
  }

  lemma ValidatedIf(r: Run)
    requires IsNormal(r.p) && IsBuilt(r.sel, r.version) && IsCovered(r.p, r.p.claims, Catalog(r.sel))
    requires forall m :: m in r.Claims() ==> !IsRefused(r.Verified(m))
    ensures r.Validated()
  {
  }

  lemma SpansIf(r: Run)
    requires forall ref :: ref in r.evidence ==> r.evidence[ref].span == NoSpan
    ensures AllSpans(r)
  {
  }

  lemma AcceptedIsSound()
    ensures Accepted().Sound()
  {
  }

  lemma AcceptedHasSpans()
    ensures AllSpans(Accepted())
  {
    SpansIf(Accepted());
  }

  lemma AcceptedIsValidated()
    ensures Accepted().Validated()
  {
    BriefIsNormal();
    BriefIsCovered();
    SourcesAreCitable();
    ClaimsAreAccepted();
    ValidatedIf(Accepted());
  }

  // Nothing is wrong with the summary and its evidence can be stored, but however it is read back
  // the gate refuses it.
  lemma AcceptedIsNotPublishable(row: ProcessRow, render: Json -> string)
    ensures Accepted().Sound() && Accepted().Validated() && Fits(Brief)
    ensures Storable(Accepted().Claims(), Accepted().ToStore())
    ensures forall i :: 0 <= i < |Accepted().Claims()| ==> Catalogued(Accepted().Claims()[i], Catalog(Accepted().sel))
    ensures forall items :: multiset(items) == multiset(Reloaded(Accepted())) ==> !IsPublishable(Document(Brief, row, render), row, items, render)
  {
    AcceptedIsSound();
    AcceptedIsValidated();
    AcceptedHasSpans();
    ClaimsAreAccepted();
    BriefIsNormal();
    AllCatalogued(Accepted());
    ValidatedIsStorable(Accepted());
    forall items | multiset(items) == multiset(Reloaded(Accepted())) ensures !IsPublishable(Document(Brief, row, render), row, items, render) {
      ValidatedIsPublishable(Accepted(), row, row, items, render);
    }
  }
}
