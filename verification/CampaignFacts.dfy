/** The campaign manifest and the resume decision, said of the records and documents alone. */
module CampaignFacts {
  import opened Wrappers
  import opened Json
  import opened Provenance
  import opened Campaign
  import opened CampaignResume
  import ProvenanceFacts

  // ---- the manifest ----

  /** The record's evidence passed without failures. */
  predicate Evident(r: Json) {
    var e := Get(r, "attemptEvidence");
    e.Obj? && Get(e, "verdict") == Str("PASS") && Get(e, "failures") == Arr([])
  }

  /** A pass that counts: with its evidence, and on the target bound to passing provenance by its hash. */
  predicate Counts(r: Json, provenance: Json, sha: Json) {
    var h := Get(r, "targetRevisionProvenanceSha256");
    && Get(r, "verdict") == Str("PASS") && Evident(r)
    && (Get(r, "surface") == Str("target") ==>
          provenance.Obj? && Get(provenance, "verdict") == Str("PASS") && ValidSha256(h) && h == sha)
  }

  function SurfaceOf(r: Json, repr: Json -> string): string {
    var s := Get(r, "surface");
    if s.Str? then s.s else repr(s)
  }

  /** The last record of a surface counts. */
  ghost predicate LastCounts(rs: seq<Json>, surface: string, provenance: Json, sha: Json, repr: Json -> string) {
    exists k :: 0 <= k < |rs| && SurfaceOf(rs[k], repr) == surface && Counts(rs[k], provenance, sha)
                && forall i :: k < i < |rs| ==> SurfaceOf(rs[i], repr) != surface
  }

  ghost predicate BothSurfaces(rs: seq<Json>, repr: Json -> string) {
    && (exists i :: 0 <= i < |rs| && SurfaceOf(rs[i], repr) == "hosted")
    && (exists i :: 0 <= i < |rs| && SurfaceOf(rs[i], repr) == "target")
    && forall i :: 0 <= i < |rs| ==> SurfaceOf(rs[i], repr) == "hosted" || SurfaceOf(rs[i], repr) == "target"
  }

  ghost predicate Passes(rs: seq<Json>, provenance: Json, sha: Json, repr: Json -> string) {
    && BothSurfaces(rs, repr) && (forall i :: 0 <= i < |rs| ==> Evident(rs[i]))
    && LastCounts(rs, "hosted", provenance, sha, repr) && LastCounts(rs, "target", provenance, sha, repr)
  }

  predicate Failed(provenance: Json) {
    provenance.Obj? && Get(provenance, "verdict") == Str("FAIL")
  }

  lemma CountsIsAuthority(r: Json, provenance: Json, sha: Json)
    ensures Counts(r, provenance, sha) <==> Authority(r, provenance, sha)
  {
    assert "MISSING"[0] == 'M' && "PASS"[0] == 'P';
    hide Get, ValidSha256;
  }

  lemma FailedSame(provenance: Json)
    ensures Failed(provenance) <==> ProvenanceVerdict(provenance) == Str("FAIL")
  {
    assert "MISSING"[0] == 'M' && "FAIL"[0] == 'F';
    hide Get;
  }

  lemma LastSame(rs: seq<Json>, surface: string, provenance: Json, sha: Json, repr: Json -> string)
    requires Seen(rs, surface, repr)
    ensures LastCounts(rs, surface, provenance, sha, repr) <==> LastAuthoritative(rs, surface, provenance, sha, repr)
  {
    assert forall r :: SurfaceOf(r, repr) == AsText(Get(r, "surface"), repr);
    forall r ensures Counts(r, provenance, sha) <==> Authority(r, provenance, sha) {
      CountsIsAuthority(r, provenance, sha);
    }
    LatestIsLast(rs, surface, repr);
    hide Counts, Authority, SurfaceOf, AsText, Get, Latest;
    var k :| 0 <= k < |rs| && Last(rs, surface, k, repr);
    forall i | 0 <= i < |rs| && Last(rs, surface, i, repr) ensures i == k { }
  }

  lemma CompleteSame(rs: seq<Json>, repr: Json -> string)
    ensures BothSurfaces(rs, repr) <==> Complete(rs, repr)
  {
    assert forall r :: SurfaceOf(r, repr) == AsText(Get(r, "surface"), repr);
    hide SurfaceOf, AsText, Get;
  }

  lemma EvidentSame(r: Json)
    ensures Evident(r) <==> EvidenceValid(r)
  {
    hide Get;
  }

  lemma PassesSame(rs: seq<Json>, provenance: Json, sha: Json, repr: Json -> string)
    ensures Passes(rs, provenance, sha, repr) <==> AuthoritativePass(rs, provenance, sha, repr)
  {
    hide Evident, EvidenceValid, LastCounts, LastAuthoritative, BothSurfaces;
    CompleteSame(rs, repr);
    forall r ensures Evident(r) <==> EvidenceValid(r) { EvidentSame(r); }
    if Complete(rs, repr) {
      assert Seen(rs, "hosted", repr) && Seen(rs, "target", repr);
      hide Complete, Seen;
      LastSame(rs, "hosted", provenance, sha, repr);
      LastSame(rs, "target", provenance, sha, repr);
    }
  }

  /** The manifest of a campaign: it raises exactly on an incomplete identity or a record without a surface; else it
    * lists every record in order, marked authoritative exactly when it counts, and its verdict is FAIL on failed
    * provenance, then PASS exactly when the last record of either surface counts and all evidence passed, then FAIL
    * when both surfaces are there and INCOMPLETE when not. */
  lemma ManifestExact(rs: seq<Json>, date: string, identity: Json, provenance: Json, sha: Json, at: string,
                      repr: Json -> string)
    requires Records(rs)
    ensures var r := CampaignManifest(rs, date, identity, provenance, sha, at, repr);
            && (r.Raised? <==>
                  || !(Number(Get(identity, "schemaVersion")) && NumberOf(Get(identity, "schemaVersion")) == 1.0)
                  || !Truthy(Get(identity, "branch")) || !Truthy(Get(identity, "head"))
                  || !Truthy(Get(identity, "projectVersion"))
                  || exists i :: 0 <= i < |rs| && "surface" !in rs[i].fields)
            && (r.Returned? ==>
                  && Get(r.value, "attempts").Arr? && |Get(r.value, "attempts").items| == |rs|
                  && (forall i :: 0 <= i < |rs| ==>
                        Get(r.value, "attempts").items[i]
                        == Obj(rs[i].fields["authoritative" := Bool(Counts(rs[i], provenance, sha))]))
                  && Get(r.value, "authoritativeVerdict")
                     == Str(if Failed(provenance) then "FAIL"
                            else if Passes(rs, provenance, sha, repr) then "PASS"
                            else if BothSurfaces(rs, repr) then "FAIL" else "INCOMPLETE"))
  {
    SchemaSame(Get(identity, "schemaVersion"));
    FailedSame(provenance);
    PassesSame(rs, provenance, sha, repr);
    CompleteSame(rs, repr);
    forall i | 0 <= i < |rs| ensures Counts(rs[i], provenance, sha) <==> Authority(rs[i], provenance, sha) {
      CountsIsAuthority(rs[i], provenance, sha);
    }
    ManifestFields(Attempts(rs, provenance, sha), provenance, CampaignVerdict(rs, provenance, sha, repr),
                   IdentityRecord(identity), date, at);
    hide Get, Equal, Truthy, Counts, Authority, Passes, AuthoritativePass, BothSurfaces, Complete, ManifestRecord,
      IdentityRecord, Failed, ProvenanceVerdict;
  }

  /** The rest of the manifest: the identity and the provenance it was built from. */
  lemma ManifestDocuments(rs: seq<Json>, date: string, identity: Json, provenance: Json, sha: Json, at: string,
                          repr: Json -> string)
    requires Records(rs) && CampaignManifest(rs, date, identity, provenance, sha, at, repr).Returned?
    ensures var m := CampaignManifest(rs, date, identity, provenance, sha, at, repr).value;
            var source, summary := Get(m, "campaignSourceIdentity"), Get(m, "targetRevisionProvenance");
            && Get(m, "campaignDate") == Str(date) && Get(m, "generatedAtUtc") == Str(at)
            && Get(source, "branch") == Get(identity, "branch") && Get(source, "head") == Get(identity, "head")
            && Get(source, "projectVersion") == Get(identity, "projectVersion")
            && Get(summary, "path") == Str("deployment/target-revision-provenance.json")
            && Get(summary, "verdict") == (if provenance.Obj? then Get(provenance, "verdict") else Str("MISSING"))
            && Get(summary, "failures") == (if Get(provenance, "failures") != Null then Get(provenance, "failures")
                                            else ProvenanceFailures(provenance))
  {
    IdentityFields(identity);
    SummaryFields(provenance);
    FailuresKept(provenance);
    var verdict := CampaignVerdict(rs, provenance, sha, repr);
    DateFields(Attempts(rs, provenance, sha), provenance, verdict, IdentityRecord(identity), date, at);
    hide Get, ProvenanceSummary, IdentityRecord, CampaignVerdict, Attempts, ManifestRecord, ProvenanceFailures;
  }

  lemma FailuresKept(provenance: Json)
    ensures Get(provenance, "failures") != Null ==> ProvenanceFailures(provenance) == Get(provenance, "failures")
  {
  }

  lemma DateFields(attempts: seq<Json>, provenance: Json, verdict: string, source: Json, date: string, at: string)
    ensures var m := ManifestRecord(attempts, provenance, verdict, source, date, at);
            && Get(m, "campaignDate") == Str(date) && Get(m, "generatedAtUtc") == Str(at)
            && Get(m, "campaignSourceIdentity") == source
            && Get(m, "targetRevisionProvenance") == ProvenanceSummary(provenance)
  {
    hide ProvenanceSummary;
  }

  lemma IdentityFields(identity: Json)
    ensures var d := IdentityRecord(identity);
            && Get(d, "branch") == Get(identity, "branch") && Get(d, "head") == Get(identity, "head")
            && Get(d, "projectVersion") == Get(identity, "projectVersion")
  {
  }

  lemma SchemaSame(v: Json)
    ensures Equal(v, Int(1)) <==> Number(v) && NumberOf(v) == 1.0
  {
  }

  // ---- the resume decision ----

  predicate OnTarget(r: Json) {
    r.Obj? && Get(r, "surface") == Str("target")
  }

  ghost predicate LastOnTarget(rs: seq<Json>, k: int) {
    0 <= k < |rs| && OnTarget(rs[k]) && forall i :: k < i < |rs| ==> !OnTarget(rs[i])
  }

  /** What a retained pass must show: authority, the bound hash, a passing summary, and passing provenance whose
    * documents still show every fact. */
  ghost predicate Retained(campaign: Json, provenance: Json, sha: string, latest: Json, x: Case) {
    && Get(latest, "authoritative") == Bool(true) && Get(latest, "targetRevisionProvenanceSha256") == Str(sha)
    && |sha| == 64 && SummaryShown(Get(campaign, "targetRevisionProvenance")) && RecordShown(provenance)
    && ProvenanceFacts.Facts(Reread(provenance, x))
  }

  predicate SummaryShown(s: Json) {
    s.Obj? && Get(s, "verdict") == Str("PASS") && Get(s, "failures") == Arr([])
      && Get(s, "path") == Str("deployment/target-revision-provenance.json")
  }

  predicate RecordShown(p: Json) {
    && Number(Get(p, "schemaVersion")) && NumberOf(Get(p, "schemaVersion")) == 1.0 && Get(p, "verdict") == Str("PASS")
    && Get(p, "expected").Obj? && ("local" in p.fields ==> Get(p, "local").Obj?)
    && ("remote" in p.fields ==> Get(p, "remote").Obj?)
  }

  lemma RetainedSame(campaign: Json, provenance: Json, sha: string, latest: Json, x: Case, order: seq<string>)
    requires FileOrder(Reread(provenance, x), order)
    ensures Retained(campaign, provenance, sha, latest, x) <==> Retainable(campaign, provenance, sha, latest, x, order)
  {
    SummarySame(campaign);
    RecordSame(provenance);
    HashSame(latest, sha);
    hide ProvenanceFacts.Facts, Accepted, FileOrder, Reread, Get, SummaryShown, SummaryPasses, RecordShown,
      ProvenancePasses, HashRetained;
    ProvenanceFacts.AcceptedExactly(Reread(provenance, x), order);
  }

  lemma SummarySame(campaign: Json)
    ensures SummaryPasses(campaign) <==> SummaryShown(Get(campaign, "targetRevisionProvenance"))
  {
    hide Get;
  }

  lemma HashSame(latest: Json, sha: string)
    ensures HashRetained(latest, sha) <==> Get(latest, "targetRevisionProvenanceSha256") == Str(sha) && |sha| == 64
  {
    hide Get;
  }

  lemma RecordSame(p: Json)
    ensures ProvenancePasses(p) <==> RecordShown(p)
  {
    SchemaSame(Get(p, "schemaVersion"));
  }

  /** The decision: pending exactly when the attempts are a list and the last target attempt, if any, did not pass;
    * retained exactly when it passed and still shows everything; an error otherwise. */
  lemma ResumeFacts(campaign: Json, provenance: Json, sha: string, x: Case, order: seq<string>, r: Result<State>)
    requires FileOrder(Reread(provenance, x), order) && Resumes(campaign, provenance, sha, x, order, r)
    ensures var attempts := Get(campaign, "attempts");
            && (r == Returned(Pending) <==>
                  attempts.Arr? && forall k :: LastOnTarget(attempts.items, k) ==>
                    Get(attempts.items[k], "verdict") != Str("PASS"))
            && (r == Returned(RetainedAuthoritativePass) <==>
                  && attempts.Arr?
                  && exists k :: LastOnTarget(attempts.items, k) && Get(attempts.items[k], "verdict") == Str("PASS")
                                 && Retained(campaign, provenance, sha, attempts.items[k], x))
  {
    hide FileOrder, Reread, Accepted, Retained, Retainable, Get, TargetAttempt, OnTarget;
    var attempts := Get(campaign, "attempts");
    if attempts.Arr? {
      TargetsSame(attempts.items);
      if NoTarget(attempts.items) {
        NoLast(attempts.items);
      } else {
        var k := SomeLast(attempts.items);
        OneLast(attempts.items, k);
        RetainedSame(campaign, provenance, sha, attempts.items[k], x, order);
        assert Decided(campaign, provenance, sha, attempts.items[k], x, order, r);
        hide NoTarget, LastTarget, LastOnTarget, Resumes;
        assert LastOnTarget(attempts.items, k);
      }
    }
  }

  lemma TargetsSame(rs: seq<Json>)
    ensures forall k :: LastOnTarget(rs, k) <==> 0 <= k && LastTarget(rs, k)
  {
    assert forall r :: OnTarget(r) <==> TargetAttempt(r);
    hide OnTarget, TargetAttempt;
  }
}
