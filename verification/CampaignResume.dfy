/** Recording provenance, building the manifest and asking for the resume state, taken together. */
module CampaignResume {
  import opened Wrappers
  import opened Json
  import opened Provenance
  import opened Campaign
  import ProvenanceChain

  /** str() of a value that is not a string never reads as a surface name. */
  ghost predicate ReprPlain(repr: Json -> string) {
    forall j: Json :: !j.Str? ==> repr(j) !in {"hosted", "target"}
  }

  /** One pass through the three steps: x was recorded with these failures, the records became this
    * manifest, and the question was answered r. The records of the reread manifest come in `order`. */
  ghost predicate Pipeline(x: Case, failures: seq<Code>, recorded: seq<string>, name: Code -> string, checkedAt: string,
                           rs: seq<Json>, sha: string, manifest: Json, order: seq<string>, r: Result<State>)
  {
    var p := ProvenanceRecord(x, failures, name, checkedAt);
    && x.local.Obj? && x.remote.Obj? && FileOrder(x, recorded) && FileOrder(x, order)
    && (failures == [] <==> Accepted(x, recorded))
    && Records(rs) && (exists source, date, at ::
                         manifest == ManifestRecord(Attempts(rs, p, Str(sha)), p,
                                                    CampaignVerdict(rs, p, Str(sha), x.repr), source, date, at))
    && Resumes(manifest, p, sha, x, order, r)
  }

  // ---- what the documents hold ----

  lemma RecordFields(x: Case, failures: seq<Code>, name: Code -> string, checkedAt: string)
    ensures var p := ProvenanceRecord(x, failures, name, checkedAt);
            && Get(p, "schemaVersion") == Int(1) && Get(p, "verdict") == Str(Verdict(failures))
            && Get(p, "expected") == Obj(map["remoteWorkspace" := Str(x.workspace), "installRoot" := Str(x.root)])
            && Document(p, "local") == x.local && Document(p, "remote") == x.remote
            && ProvenanceVerdict(p) == Str(Verdict(failures))
            && (failures == [] ==> ProvenanceFailures(p) == Arr([]))
  {
  }

  lemma RereadIsSame(x: Case, failures: seq<Code>, name: Code -> string, checkedAt: string)
    ensures Reread(ProvenanceRecord(x, failures, name, checkedAt), x) == x
  {
    RecordFields(x, failures, name, checkedAt);
    hide ProvenanceRecord;
    assert "installRoot" != "remoteWorkspace";
  }

  lemma ManifestFields(attempts: seq<Json>, provenance: Json, verdict: string, source: Json, date: string, at: string)
    ensures var m := ManifestRecord(attempts, provenance, verdict, source, date, at);
            && Get(m, "attempts") == Arr(attempts) && Get(m, "authoritativeVerdict") == Str(verdict)
            && Get(m, "targetRevisionProvenance") == ProvenanceSummary(provenance)
  {
    hide ProvenanceSummary;
  }

  lemma SummaryFields(provenance: Json)
    ensures var s := ProvenanceSummary(provenance);
            && Get(s, "path") == Str(PROVENANCE_PATH) && Get(s, "verdict") == ProvenanceVerdict(provenance)
            && Get(s, "failures") == ProvenanceFailures(provenance)
  {
    hide ProvenanceVerdict, ProvenanceFailures;
  }

  // ---- the decision on a built manifest ----

  /** An authoritative target attempt is retainable, and only such a one is. */
  lemma RetainableIsAuthority(x: Case, failures: seq<Code>, recorded: seq<string>, name: Code -> string,
                              checkedAt: string, record: Json, sha: string, campaign: Json, order: seq<string>)
    requires record.Obj? && TargetAttempt(record) && x.local.Obj? && x.remote.Obj?
    requires FileOrder(x, recorded) && FileOrder(x, order) && (failures == [] <==> Accepted(x, recorded))
    requires Get(campaign, "targetRevisionProvenance")
             == ProvenanceSummary(ProvenanceRecord(x, failures, name, checkedAt))
    ensures var p := ProvenanceRecord(x, failures, name, checkedAt);
            Retainable(campaign, p, sha, Annotated(record, p, Str(sha)), x, order) <==> Authority(record, p, Str(sha))
  {
    var p := ProvenanceRecord(x, failures, name, checkedAt);
    RecordFields(x, failures, name, checkedAt);
    RereadIsSame(x, failures, name, checkedAt);
    SummaryFields(p);
    AnnotatedKeeps(record, p, Str(sha));
    if Authority(record, p, Str(sha)) {
      AuthorityShows(record, p, sha, failures, campaign);
      ProvenanceChain.AcceptedInAnyOrder(x, recorded, order);
      hide *;
      assert Reread(p, x) == x;
      Retains(campaign, p, sha, Annotated(record, p, Str(sha)), x, order);
    } else {
      hide Authority, Accepted, Annotated, ProvenanceRecord, ProvenancePasses, SummaryPasses, HashRetained;
    }
  }

  lemma Retains(campaign: Json, p: Json, sha: string, latest: Json, x: Case, order: seq<string>)
    requires StillShows(campaign, p, sha, latest) && Reread(p, x) == x && Accepted(x, order)
    ensures Retainable(campaign, p, sha, latest, x, order)
  {
    hide StillShows, Reread, Accepted;
  }

  lemma AuthorityShows(record: Json, p: Json, sha: string, failures: seq<Code>, campaign: Json)
    requires record.Obj? && TargetAttempt(record) && Authority(record, p, Str(sha))
    requires ProvenanceVerdict(p) == Str(Verdict(failures)) && (failures == [] ==> ProvenanceFailures(p) == Arr([]))
    requires Get(p, "schemaVersion") == Int(1) && Get(p, "verdict") == Str(Verdict(failures)) && Get(p, "expected").Obj?
    requires Document(p, "local").Obj? && Document(p, "remote").Obj?
    requires Get(campaign, "targetRevisionProvenance") == ProvenanceSummary(p)
    ensures failures == [] && StillShows(campaign, p, sha, Annotated(record, p, Str(sha)))
  {
    SummaryFields(p);
    AnnotatedKeeps(record, p, Str(sha));
    hide ProvenanceSummary, Annotated, EvidenceValid, Get, Document, ProvenanceVerdict, ProvenanceFailures;
    VerdictPasses(failures);
  }

  lemma VerdictPasses(failures: seq<Code>)
    ensures Verdict(failures) == "PASS" <==> failures == []
  {
    assert "FAIL"[0] == 'F' && "PASS"[0] == 'P';
  }

  /** PENDING exactly when there is no target attempt or the last one did not pass; the retained state exactly
    * when the last one is authoritative; an error exactly when it passed without authority. */
  lemma ResumeExact(x: Case, failures: seq<Code>, recorded: seq<string>, name: Code -> string, checkedAt: string,
                    rs: seq<Json>, sha: string, manifest: Json, order: seq<string>, r: Result<State>)
    requires Pipeline(x, failures, recorded, name, checkedAt, rs, sha, manifest, order, r)
    ensures NoTarget(rs) ==> r == Returned(Pending)
    ensures forall k: nat :: LastTarget(rs, k) ==>
              r == if Get(rs[k], "verdict") != Str("PASS") then Returned(Pending)
                   else if Authority(rs[k], ProvenanceRecord(x, failures, name, checkedAt), Str(sha))
                   then Returned(RetainedAuthoritativePass) else Raised
  {
    var p := ProvenanceRecord(x, failures, name, checkedAt);
    var attempts := Attempts(rs, p, Str(sha));
    BuiltFields(x, failures, recorded, name, checkedAt, rs, sha, manifest, order, r);
    hide ProvenanceRecord, Authority, Accepted, Pipeline, FileOrder, Annotated, Retainable;
    TargetsKept(rs, p, Str(sha));
    forall k: nat | LastTarget(rs, k)
      ensures r == if Get(rs[k], "verdict") != Str("PASS") then Returned(Pending)
                   else if Authority(rs[k], p, Str(sha)) then Returned(RetainedAuthoritativePass) else Raised
    {
      assert LastTarget(attempts, k);
      AnnotatedKeeps(rs[k], p, Str(sha));
      RetainableIsAuthority(x, failures, recorded, name, checkedAt, rs[k], sha, manifest, order);
    }
  }

  lemma BuiltFields(x: Case, failures: seq<Code>, recorded: seq<string>, name: Code -> string, checkedAt: string,
                    rs: seq<Json>, sha: string, manifest: Json, order: seq<string>, r: Result<State>)
    requires Pipeline(x, failures, recorded, name, checkedAt, rs, sha, manifest, order, r)
    ensures var p := ProvenanceRecord(x, failures, name, checkedAt);
            && x.local.Obj? && x.remote.Obj? && FileOrder(x, recorded) && FileOrder(x, order)
            && (failures == [] <==> Accepted(x, recorded)) && Records(rs)
            && Get(manifest, "attempts") == Arr(Attempts(rs, p, Str(sha)))
            && Get(manifest, "authoritativeVerdict") == Str(CampaignVerdict(rs, p, Str(sha), x.repr))
            && Get(manifest, "targetRevisionProvenance") == ProvenanceSummary(p)
            && Resumes(manifest, p, sha, x, order, r)
  {
    hide ProvenanceRecord, Accepted, FileOrder, Resumes, CampaignVerdict, ManifestRecord, Get;
    var p := ProvenanceRecord(x, failures, name, checkedAt);
    var source, date, at :| manifest == ManifestRecord(Attempts(rs, p, Str(sha)), p,
                                                       CampaignVerdict(rs, p, Str(sha), x.repr), source, date, at);
    ManifestFields(Attempts(rs, p, Str(sha)), p, CampaignVerdict(rs, p, Str(sha), x.repr), source, date, at);
  }

  lemma TargetsKept(rs: seq<Json>, p: Json, sha: Json)
    requires Records(rs)
    ensures NoTarget(Attempts(rs, p, sha)) <==> NoTarget(rs)
    ensures forall k: nat :: LastTarget(Attempts(rs, p, sha), k) <==> LastTarget(rs, k)
  {
    hide TargetAttempt, Annotated;
    var attempts := Attempts(rs, p, sha);
    forall i | 0 <= i < |rs| ensures TargetAttempt(attempts[i]) == TargetAttempt(rs[i]) {
      AnnotatedKeeps(rs[i], p, sha);
    }
  }

  // ---- a passing campaign ----

  /** A campaign verdict of PASS always leads to the retained state. */
  lemma PassIsRetained(x: Case, failures: seq<Code>, recorded: seq<string>, name: Code -> string, checkedAt: string,
                       rs: seq<Json>, sha: string, manifest: Json, order: seq<string>, r: Result<State>)
    requires Pipeline(x, failures, recorded, name, checkedAt, rs, sha, manifest, order, r) && ReprPlain(x.repr)
    requires Get(manifest, "authoritativeVerdict") == Str("PASS")
    ensures r == Returned(RetainedAuthoritativePass)
  {
    BuiltFields(x, failures, recorded, name, checkedAt, rs, sha, manifest, order, r);
    ResumeExact(x, failures, recorded, name, checkedAt, rs, sha, manifest, order, r);
    hide ProvenanceRecord, Accepted, Pipeline, FileOrder, Resumes;
    var p := ProvenanceRecord(x, failures, name, checkedAt);
    var k := PassHasTarget(rs, p, Str(sha), x.repr);
  }

  lemma PassHasTarget(rs: seq<Json>, p: Json, sha: Json, repr: Json -> string) returns (k: nat)
    requires Records(rs) && ReprPlain(repr) && CampaignVerdict(rs, p, sha, repr) == "PASS"
    ensures LastTarget(rs, k) && Authority(rs[k], p, sha) && Get(rs[k], "verdict") == Str("PASS")
  {
    hide Latest, Get, EvidenceValid, Bound, ProvenanceVerdict;
    assert "PASS"[0] == 'P' && "FAIL"[0] == 'F' && "INCOMPLETE"[0] == 'I';
    assert AuthoritativePass(rs, p, sha, repr);
    LatestIsLast(rs, "target", repr);
    k :| 0 <= k < |rs| && Last(rs, "target", k, repr) && Latest(rs, repr)["target"] == rs[k];
    LastIsTarget(rs, k, repr);
  }

  lemma LastIsTarget(rs: seq<Json>, k: nat, repr: Json -> string)
    requires Records(rs) && ReprPlain(repr) && Last(rs, "target", k, repr)
    ensures LastTarget(rs, k)
  {
    hide Get;
  }

  /** No campaign passes without a passing provenance document. */
  lemma PassNeedsProvenance(rs: seq<Json>, p: Json, sha: Json, repr: Json -> string)
    requires Records(rs) && ReprPlain(repr) && CampaignVerdict(rs, p, sha, repr) == "PASS"
    ensures p.Obj? && Get(p, "verdict") == Str("PASS")
  {
    var k := PassHasTarget(rs, p, sha, repr);
    assert "MISSING"[0] == 'M' && "PASS"[0] == 'P';
  }

  /** The same, outcome by outcome. */
  lemma ResumeOutcomes(x: Case, failures: seq<Code>, recorded: seq<string>, name: Code -> string, checkedAt: string,
                       rs: seq<Json>, sha: string, manifest: Json, order: seq<string>, r: Result<State>)
    requires Pipeline(x, failures, recorded, name, checkedAt, rs, sha, manifest, order, r)
    ensures r == Returned(Pending) <==> forall k: nat :: LastTarget(rs, k) ==> Get(rs[k], "verdict") != Str("PASS")
    ensures r == Returned(RetainedAuthoritativePass) <==>
            exists k: nat :: LastTarget(rs, k)
              && Authority(rs[k], ProvenanceRecord(x, failures, name, checkedAt), Str(sha))
  {
    ResumeExact(x, failures, recorded, name, checkedAt, rs, sha, manifest, order, r);
    hide ProvenanceRecord, Pipeline, LastTarget, NoTarget, Get, EvidenceValid, Bound;
    if !NoTarget(rs) {
      var k := SomeLast(rs);
      OneLast(rs, k);
    } else {
      NoLast(rs);
    }
  }

  /** Whatever the documents, a retained pass means the recorded provenance is accepted again: with the
    * chain of hashes this carries over from the live build inputs to the running process. */
  lemma RetainedMeansAccepted(campaign: Json, provenance: Json, sha: string, x: Case, order: seq<string>,
                              r: Result<State>)
    requires Resumes(campaign, provenance, sha, x, order, r) && r == Returned(RetainedAuthoritativePass)
    ensures Get(campaign, "attempts").Arr? && Accepted(Reread(provenance, x), order)
    ensures exists k: nat :: LastTarget(Get(campaign, "attempts").items, k)
                             && HashRetained(Get(campaign, "attempts").items[k], sha)
  {
    hide Accepted, Reread, Get, HashRetained, SummaryPasses, ProvenancePasses;
    var attempts := Get(campaign, "attempts").items;
    var k := SomeLast(attempts);
    assert Decided(campaign, provenance, sha, attempts[k], x, order, r);
  }

  lemma {:induction false} SomeLast(attempts: seq<Json>) returns (k: nat)
    requires !NoTarget(attempts)
    ensures LastTarget(attempts, k)
    decreases |attempts|
  {
    hide TargetAttempt;
    var n := |attempts| - 1;
    if TargetAttempt(attempts[n]) {
      k := n;
    } else {
      var front := attempts[..n];
      assert !NoTarget(front);
      k := SomeLast(front);
      assert forall i :: 0 <= i < n ==> front[i] == attempts[i];
    }
  }
}
