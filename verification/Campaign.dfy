/** The campaign manifest built from attempt records and target provenance, and the decision to resume or
  * retain a target pass that reads both back. */
module Campaign {
  import opened Wrappers
  import opened Json
  import opened Provenance
  import ProvenanceChecker

  datatype State = Pending | RetainedAuthoritativePass

  // ---- the recorded provenance ----

  /** The document write_result leaves, read back as JSON. */
  function ProvenanceRecord(x: Case, failures: seq<Code>, name: Code -> string, checkedAt: string): Json {
    Obj(map["schemaVersion" := Int(1), "checkedAtUtc" := Str(checkedAt), "verdict" := Str(Verdict(failures)),
            "failures" := Arr(seq(|failures|, i requires 0 <= i < |failures| => Str(name(failures[i])))),
            "local" := x.local, "remote" := x.remote,
            "expected" := Obj(map["remoteWorkspace" := Str(x.workspace), "installRoot" := Str(x.root)])])
  }

  function Verdict(failures: seq<Code>): string { if failures == [] then "PASS" else "FAIL" }

  method WriteResult(x: Case, order: seq<string>, inputs: seq<string>, name: Code -> string, checkedAt: string)
    returns (record: Json, failures: seq<Code>)
    requires FileOrder(x, order) && forall p :: p in inputs <==> p in x.tables.inputs
    ensures forall c :: c in failures <==> Cause(x, order, c)
    ensures failures == [] <==> Accepted(x, order)
    ensures record == ProvenanceRecord(x, failures, name, checkedAt)
  {
    hide Accepted, Cause, FileOrder;
    failures := ProvenanceChecker.EvaluateProvenance(x, order, inputs);
    record := ProvenanceRecord(x, failures, name, checkedAt);
  }

  // ---- the manifest ----

  /** str(j) */
  function AsText(j: Json, repr: Json -> string): string { if j.Str? then j.s else repr(j) }

  predicate EvidenceValid(record: Json) {
    var e := Get(record, "attemptEvidence");
    e.Obj? && Get(e, "verdict") == Str("PASS") && Get(e, "failures") == Arr([])
  }

  /** What build_campaign_manifest takes from the provenance document; Null stands for no document. */
  function ProvenanceVerdict(provenance: Json): Json {
    if provenance.Obj? then Get(provenance, "verdict") else Str("MISSING")
  }

  function ProvenanceFailures(provenance: Json): Json {
    if provenance.Obj? && "failures" in provenance.fields then provenance.fields["failures"] else Arr([])
  }

  predicate Bound(record: Json, provenance: Json, sha: Json) {
    var h := Get(record, "targetRevisionProvenanceSha256");
    ProvenanceVerdict(provenance) == Str("PASS") && ValidSha256(h) && h == sha
  }

  predicate Authority(record: Json, provenance: Json, sha: Json) {
    && Get(record, "verdict") == Str("PASS") && EvidenceValid(record)
    && (Get(record, "surface") == Str("target") ==> Bound(record, provenance, sha))
  }

  function Annotated(record: Json, provenance: Json, sha: Json): Json
    requires record.Obj?
  {
    Obj(record.fields["authoritative" := Bool(Authority(record, provenance, sha))])
  }

  predicate Records(rs: seq<Json>) {
    forall i :: 0 <= i < |rs| ==> rs[i].Obj?
  }

  function Attempts(rs: seq<Json>, provenance: Json, sha: Json): (r: seq<Json>)
    requires Records(rs)
    ensures |r| == |rs| && forall i :: 0 <= i < |rs| ==> r[i] == Annotated(rs[i], provenance, sha)
  {
    seq(|rs|, i requires 0 <= i < |rs| => Annotated(rs[i], provenance, sha))
  }

  /** k is the last attempt on the surface. */
  predicate Last(rs: seq<Json>, surface: string, k: nat, repr: Json -> string) {
    && k < |rs| && AsText(Get(rs[k], "surface"), repr) == surface
    && forall i :: k < i < |rs| ==> AsText(Get(rs[i], "surface"), repr) != surface
  }

  predicate Seen(rs: seq<Json>, surface: string, repr: Json -> string) {
    exists i :: 0 <= i < |rs| && AsText(Get(rs[i], "surface"), repr) == surface
  }

  predicate Complete(rs: seq<Json>, repr: Json -> string) {
    && Seen(rs, "hosted", repr) && Seen(rs, "target", repr)
    && forall i :: 0 <= i < |rs| ==> AsText(Get(rs[i], "surface"), repr) in {"hosted", "target"}
  }

  predicate AuthoritativePass(rs: seq<Json>, provenance: Json, sha: Json, repr: Json -> string) {
    && Complete(rs, repr) && (forall i :: 0 <= i < |rs| ==> EvidenceValid(rs[i]))
    && LastAuthoritative(rs, "hosted", provenance, sha, repr) && LastAuthoritative(rs, "target", provenance, sha, repr)
  }

  predicate LastAuthoritative(rs: seq<Json>, surface: string, provenance: Json, sha: Json, repr: Json -> string) {
    forall k :: 0 <= k < |rs| && Last(rs, surface, k, repr) ==> Authority(rs[k], provenance, sha)
  }

  function CampaignVerdict(rs: seq<Json>, provenance: Json, sha: Json, repr: Json -> string): string {
    if ProvenanceVerdict(provenance) == Str("FAIL") then "FAIL"
    else if AuthoritativePass(rs, provenance, sha, repr) then "PASS"
    else if Complete(rs, repr) then "FAIL"
    else "INCOMPLETE"
  }

  const PROVENANCE_PATH := "deployment/target-revision-provenance.json"

  function ManifestRecord(attempts: seq<Json>, provenance: Json, verdict: string, source: Json, date: string,
                          at: string): Json
  {
    Obj(map["campaign" := Str("route1-sequence-formal-rerun"), "campaignDate" := Str(date), "generatedAtUtc" := Str(at),
            "sourceProvenance" := Str("deployment/"), "campaignSourceIdentity" := source,
            "targetRevisionProvenance" := ProvenanceSummary(provenance),
            "authoritativeVerdict" := Str(verdict), "attempts" := Arr(attempts)])
  }

  function ProvenanceSummary(provenance: Json): Json {
    Obj(map["path" := Str(PROVENANCE_PATH), "verdict" := ProvenanceVerdict(provenance),
            "failures" := ProvenanceFailures(provenance)])
  }

  predicate IdentityComplete(identity: Json) {
    && Equal(Get(identity, "schemaVersion"), Int(1)) && Truthy(Get(identity, "branch")) && Truthy(Get(identity, "head"))
    && Truthy(Get(identity, "projectVersion"))
  }

  function IdentityRecord(identity: Json): Json {
    Obj(map["path" := Str("deployment/campaign-source-identity.json"), "branch" := Get(identity, "branch"),
            "head" := Get(identity, "head"), "projectVersion" := Get(identity, "projectVersion")])
  }

  predicate Surfaced(rs: seq<Json>) {
    forall i :: 0 <= i < |rs| ==> rs[i].Obj? && "surface" in rs[i].fields
  }

  /** An incomplete identity or a record without a surface raises. */
  function CampaignManifest(rs: seq<Json>, date: string, identity: Json, provenance: Json, sha: Json, at: string,
                            repr: Json -> string): Result<Json>
    requires Records(rs)
  {
    if !IdentityComplete(identity) || !Surfaced(rs) then Raised
    else Returned(ManifestRecord(Attempts(rs, provenance, sha), provenance, CampaignVerdict(rs, provenance, sha, repr),
                              IdentityRecord(identity), date, at))
  }

  // ---- the resume decision ----

  predicate TargetAttempt(r: Json) {
    r.Obj? && Get(r, "surface") == Str("target")
  }

  predicate LastTarget(attempts: seq<Json>, k: nat) {
    k < |attempts| && TargetAttempt(attempts[k]) && forall i :: k < i < |attempts| ==> !TargetAttempt(attempts[i])
  }

  predicate NoTarget(attempts: seq<Json>) {
    forall i :: 0 <= i < |attempts| ==> !TargetAttempt(attempts[i])
  }

  /** provenance.get(key, {}) */
  function Document(provenance: Json, key: string): Json {
    if provenance.Obj? && key in provenance.fields then provenance.fields[key] else Obj(map[])
  }

  /** The case the recorded provenance is evaluated as again. */
  function Reread(provenance: Json, x: Case): Case {
    var e := Get(provenance, "expected");
    x.(local := Document(provenance, "local"), remote := Document(provenance, "remote"),
       workspace := Text(Get(e, "remoteWorkspace"), x.repr), root := Text(Get(e, "installRoot"), x.repr))
  }

  predicate SummaryPasses(campaign: Json) {
    var s := Get(campaign, "targetRevisionProvenance");
    s.Obj? && Get(s, "verdict") == Str("PASS") && Get(s, "path") == Str(PROVENANCE_PATH)
      && Get(s, "failures") == Arr([])
  }

  predicate HashRetained(latest: Json, sha: string) {
    var h := Get(latest, "targetRevisionProvenanceSha256");
    h.Str? && |h.s| == 64 && h.s == sha
  }

  predicate ProvenancePasses(provenance: Json) {
    && Equal(Get(provenance, "schemaVersion"), Int(1)) && Get(provenance, "verdict") == Str("PASS")
    && Get(provenance, "expected").Obj? && Document(provenance, "local").Obj? && Document(provenance, "remote").Obj?
  }

  /** Everything a retained pass must still show, `order` being the order of the reread file records. */
  ghost predicate Retainable(campaign: Json, provenance: Json, sha: string, latest: Json, x: Case, order: seq<string>) {
    StillShows(campaign, provenance, sha, latest) && Accepted(Reread(provenance, x), order)
  }

  predicate StillShows(campaign: Json, provenance: Json, sha: string, latest: Json) {
    && Get(latest, "authoritative") == Bool(true) && HashRetained(latest, sha) && SummaryPasses(campaign)
    && ProvenancePasses(provenance)
  }

  /** The decision: an error unless the attempts are a list, and for a passing last target attempt unless it
    * is retainable. */
  ghost predicate Resumes(campaign: Json, provenance: Json, sha: string, x: Case, order: seq<string>,
                          r: Result<State>)
  {
    var attempts := Get(campaign, "attempts");
    && (!attempts.Arr? ==> r == Raised)
    && (attempts.Arr? && NoTarget(attempts.items) ==> r == Returned(Pending))
    && (attempts.Arr? ==> forall k: nat :: LastTarget(attempts.items, k) ==>
          Decided(campaign, provenance, sha, attempts.items[k], x, order, r))
  }

  ghost predicate Decided(campaign: Json, provenance: Json, sha: string, latest: Json, x: Case, order: seq<string>,
                          r: Result<State>)
  {
    r == if Get(latest, "verdict") != Str("PASS") then Returned(Pending)
         else if Retainable(campaign, provenance, sha, latest, x, order) then Returned(RetainedAuthoritativePass)
         else Raised
  }

  /** The last target attempt, found from the front as the list is filtered. */
  method LastTargetOf(attempts: seq<Json>) returns (found: bool, k: nat)
    ensures found ==> LastTarget(attempts, k)
    ensures !found ==> NoTarget(attempts)
  {
    hide TargetAttempt;
    found, k := false, 0;
    for i := 0 to |attempts|
      invariant found ==> k < i && TargetAttempt(attempts[k]) && forall j :: k < j < i ==> !TargetAttempt(attempts[j])
      invariant !found ==> forall j :: 0 <= j < i ==> !TargetAttempt(attempts[j])
    {
      if TargetAttempt(attempts[i]) { found, k := true, i; }
    }
  }

  method RetainedTargetResumeState(campaign: Json, provenance: Json, sha: string, x: Case, order: seq<string>,
                                   inputs: seq<string>)
    returns (r: Result<State>)
    requires FileOrder(Reread(provenance, x), order) && forall p :: p in inputs <==> p in x.tables.inputs
    ensures Resumes(campaign, provenance, sha, x, order, r)
  {
    hide FileOrder, Accepted, Get, Decided, Reread, TargetAttempt, NoTarget, LastTarget;
    var attempts := Get(campaign, "attempts");
    if !attempts.Arr? { return Raised; }
    var found, k := LastTargetOf(attempts.items);
    if !found {
      NoLast(attempts.items);
      return Returned(Pending);
    }
    OneLast(attempts.items, k);
    var latest := attempts.items[k];
    r := Decide(campaign, provenance, sha, latest, x, order, inputs);
  }

  lemma NoLast(attempts: seq<Json>)
    requires NoTarget(attempts)
    ensures forall k: nat :: !LastTarget(attempts, k)
  {
  }

  lemma OneLast(attempts: seq<Json>, k: nat)
    requires LastTarget(attempts, k)
    ensures k < |attempts| && forall i: nat :: LastTarget(attempts, i) ==> i == k
    ensures !NoTarget(attempts)
  {
    hide TargetAttempt;
  }

  lemma SameTables(provenance: Json, x: Case)
    ensures Reread(provenance, x).tables == x.tables
  {
  }

  method CheckRetained(campaign: Json, provenance: Json, sha: string, latest: Json) returns (shows: bool)
    ensures shows <==> StillShows(campaign, provenance, sha, latest)
  {
    hide Get, SummaryPasses, HashRetained, ProvenancePasses;
    if Get(latest, "authoritative") != Bool(true) { return false; }
    if !HashRetained(latest, sha) { return false; }
    if !SummaryPasses(campaign) { return false; }
    return ProvenancePasses(provenance);
  }

  method Revalidate(x: Case, order: seq<string>, inputs: seq<string>) returns (valid: bool)
    requires FileOrder(x, order) && forall p :: p in inputs <==> p in x.tables.inputs
    ensures valid <==> Accepted(x, order)
  {
    var failures := ProvenanceChecker.EvaluateProvenance(x, order, inputs);
    return failures == [];
  }

  method Decide(campaign: Json, provenance: Json, sha: string, latest: Json, x: Case, order: seq<string>,
                inputs: seq<string>)
    returns (r: Result<State>)
    requires FileOrder(Reread(provenance, x), order) && forall p :: p in inputs <==> p in x.tables.inputs
    ensures Decided(campaign, provenance, sha, latest, x, order, r)
  {
    hide FileOrder, Accepted, Get, StillShows, Reread;
    if Get(latest, "verdict") != Str("PASS") { return Returned(Pending); }
    var shows := CheckRetained(campaign, provenance, sha, latest);
    if !shows { return Raised; }
    SameTables(provenance, x);
    var valid := Revalidate(Reread(provenance, x), order, inputs);
    if !valid { return Raised; }
    return Returned(RetainedAuthoritativePass);
  }

  // ---- building the manifest ----

  /** latest_by_surface: each record overwrites the one before it on its surface. */
  function Latest(rs: seq<Json>, repr: Json -> string): map<string, Json> {
    if rs == [] then map[]
    else Latest(rs[..|rs| - 1], repr)[AsText(Get(rs[|rs| - 1], "surface"), repr) := rs[|rs| - 1]]
  }

  lemma {:induction false} LatestIsLast(rs: seq<Json>, surface: string, repr: Json -> string)
    ensures surface in Latest(rs, repr) <==> Seen(rs, surface, repr)
    ensures surface in Latest(rs, repr) ==>
              exists k :: 0 <= k < |rs| && Last(rs, surface, k, repr) && Latest(rs, repr)[surface] == rs[k]
    ensures forall k :: 0 <= k < |rs| && Last(rs, surface, k, repr) ==>
              surface in Latest(rs, repr) && Latest(rs, repr)[surface] == rs[k]
    decreases |rs|
  {
    hide AsText, Get;
    if rs != [] {
      var n := |rs| - 1;
      var front := rs[..n];
      LatestIsLast(front, surface, repr);
      if AsText(Get(rs[n], "surface"), repr) == surface {
        assert Last(rs, surface, n, repr);
      } else {
        forall k | 0 <= k < n ensures Last(rs, surface, k, repr) <==> Last(front, surface, k, repr) {
          assert forall i :: 0 <= i < n ==> front[i] == rs[i];
        }
      }
    }
  }

  lemma AnnotatedKeeps(record: Json, provenance: Json, sha: Json)
    requires record.Obj?
    ensures var a := Annotated(record, provenance, sha);
            && a.Obj? && Get(a, "surface") == Get(record, "surface") && Get(a, "verdict") == Get(record, "verdict")
            && Get(a, "targetRevisionProvenanceSha256") == Get(record, "targetRevisionProvenanceSha256")
            && Get(a, "authoritative") == Bool(Authority(record, provenance, sha))
            && TargetAttempt(a) == TargetAttempt(record)
  {
    hide Authority;
  }

  /** Copying and annotating the records; `latest_by_surface`; the verdict. */
  method BuildCampaignManifest(rs: seq<Json>, date: string, identity: Json, provenance: Json, sha: Json, at: string,
                               repr: Json -> string) returns (r: Result<Json>)
    requires Records(rs)
    ensures r == CampaignManifest(rs, date, identity, provenance, sha, at, repr)
  {
    hide IdentityComplete, IdentityRecord, CampaignVerdict, Surfaced, Annotated, ManifestRecord;
    if !IdentityComplete(identity) { return Raised; }
    var attempts: seq<Json> := [];
    for i := 0 to |rs|
      invariant attempts == Attempts(rs, provenance, sha)[..i]
    {
      attempts := attempts + [Annotated(rs[i], provenance, sha)];
    }
    assert attempts == Attempts(rs, provenance, sha);
    var verdict := VerdictOf(rs, attempts, provenance, sha, repr);
    if verdict.Raised? { return Raised; }
    return Returned(ManifestRecord(attempts, provenance, verdict.value, IdentityRecord(identity), date, at));
  }

  method VerdictOf(rs: seq<Json>, attempts: seq<Json>, provenance: Json, sha: Json, repr: Json -> string)
    returns (r: Result<string>)
    requires Records(rs) && attempts == Attempts(rs, provenance, sha)
    ensures r == if Surfaced(rs) then Returned(CampaignVerdict(rs, provenance, sha, repr)) else Raised
  {
    hide Authority, EvidenceValid, AsText, Get, ProvenanceVerdict, Annotated, AuthoritativePass, Complete;
    var latest: map<string, Json> := map[];
    for i := 0 to |rs|
      invariant Surfaced(rs[..i]) && latest == Latest(attempts[..i], repr)
    {
      assert rs[..i + 1] == rs[..i] + [rs[i]] && attempts[..i + 1][..i] == attempts[..i];
      if "surface" !in rs[i].fields { return Raised; }
      latest := latest[AsText(Get(attempts[i], "surface"), repr) := attempts[i]];
    }
    assert rs[..|rs|] == rs && attempts[..|rs|] == attempts;
    var pass := PassOf(rs, attempts, latest, provenance, sha, repr);
    var complete := latest.Keys == {"hosted", "target"};
    KeysComplete(attempts, repr);
    SameSurfaces(rs, provenance, sha, repr);
    if ProvenanceVerdict(provenance) == Str("FAIL") { return Returned("FAIL"); }
    if pass { return Returned("PASS"); }
    if complete { return Returned("FAIL"); }
    return Returned("INCOMPLETE");
  }

  lemma KeysComplete(rs: seq<Json>, repr: Json -> string)
    ensures Latest(rs, repr).Keys == {"hosted", "target"} <==> Complete(rs, repr)
  {
    hide AsText, Get, Latest;
    forall s ensures s in Latest(rs, repr) <==> Seen(rs, s, repr) { LatestIsLast(rs, s, repr); }
    if Complete(rs, repr) {
      assert forall s :: s in Latest(rs, repr) ==> s in {"hosted", "target"};
    } else if Latest(rs, repr).Keys == {"hosted", "target"} {
      forall i | 0 <= i < |rs| ensures AsText(Get(rs[i], "surface"), repr) in {"hosted", "target"} {
        assert Seen(rs, AsText(Get(rs[i], "surface"), repr), repr);
      }
    }
  }

  /** Annotating changes no surface. */
  lemma SameSurfaces(rs: seq<Json>, provenance: Json, sha: Json, repr: Json -> string)
    requires Records(rs)
    ensures var attempts := Attempts(rs, provenance, sha);
            && (Complete(attempts, repr) <==> Complete(rs, repr))
            && forall k: nat, s :: Last(attempts, s, k, repr) <==> Last(rs, s, k, repr)
  {
    hide AsText, Get, Authority, Annotated;
    var attempts := Attempts(rs, provenance, sha);
    forall i | 0 <= i < |rs| ensures Get(attempts[i], "surface") == Get(rs[i], "surface") {
      AnnotatedKeeps(rs[i], provenance, sha);
    }
    assert forall s :: Seen(attempts, s, repr) <==> Seen(rs, s, repr);
  }

  method PassOf(rs: seq<Json>, attempts: seq<Json>, latest: map<string, Json>, provenance: Json, sha: Json,
                repr: Json -> string) returns (pass: bool)
    requires Records(rs) && attempts == Attempts(rs, provenance, sha) && latest == Latest(attempts, repr)
    ensures pass <==> AuthoritativePass(rs, provenance, sha, repr)
  {
    hide EvidenceValid, Complete, Latest, LastAuthoritative, Get;
    KeysComplete(attempts, repr);
    SameSurfaces(rs, provenance, sha, repr);
    if latest.Keys != {"hosted", "target"} { return false; }
    for i := 0 to |rs|
      invariant forall j :: 0 <= j < i ==> EvidenceValid(rs[j])
    {
      if !EvidenceValid(rs[i]) { return false; }
    }
    LatestAuthority(rs, "hosted", provenance, sha, repr);
    LatestAuthority(rs, "target", provenance, sha, repr);
    pass := Get(latest["hosted"], "authoritative") == Bool(true)
            && Get(latest["target"], "authoritative") == Bool(true);
  }

  lemma LatestAuthority(rs: seq<Json>, surface: string, provenance: Json, sha: Json, repr: Json -> string)
    requires Records(rs) && surface in Latest(Attempts(rs, provenance, sha), repr)
    ensures Get(Latest(Attempts(rs, provenance, sha), repr)[surface], "authoritative") == Bool(true)
            <==> LastAuthoritative(rs, surface, provenance, sha, repr)
  {
    hide Authority, AsText, Get, Last, Latest, Annotated, Complete;
    var attempts := Attempts(rs, provenance, sha);
    LatestIsLast(attempts, surface, repr);
    SameSurfaces(rs, provenance, sha, repr);
    forall k | 0 <= k < |rs| ensures Get(attempts[k], "authoritative") == Bool(Authority(rs[k], provenance, sha)) {
      AnnotatedKeeps(rs[k], provenance, sha);
    }
  }
}
