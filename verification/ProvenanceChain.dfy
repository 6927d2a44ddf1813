/** What an accepted provenance check proves about the target: the chain of hashes from the live build
  * inputs to the running process, and the identity of the two workspaces. */
module ProvenanceChain {
  import opened Json
  import opened Provenance
  import opened Octets
  import ContentDigest

  function TrustedFile(x: Case, p: string): Json { Get(Get(Get(Trusted(x), "manifest"), "files"), p) }

  lemma NoCause(x: Case, order: seq<string>, c: Code)
    requires Accepted(x, order)
    ensures !LocalCause(x, c) && Captured(x)
    ensures !MarkerCause(x, c) && !ContentCause(x, c) && !BuildCause(x, c) && !ManifestCause(x, c)
    ensures !FileCause(x, order, c) && !ReleaseCause(x, c) && !InputCause(x, c) && !ServiceCause(x, c)
  {
    hide MarkerCause, ContentCause, BuildCause, ManifestCause, FileCause, ReleaseCause, InputCause, ServiceCause;
    assert !Cause(x, order, c) && !Cause(x, order, RemoteCaptureFailed);
  }

  lemma EqualToText(a: Json, b: Json)
    requires Equal(a, b) && (a.Str? || b.Str?)
    ensures a == b
  {
  }

  /** The live build input carries the hash the marker recorded at build time. */
  lemma LiveIsMarker(x: Case, order: seq<string>, p: string)
    requires p in x.tables.inputs && Accepted(x, order)
    ensures ValidSha256(Get(MarkerInputs(x), p)) && GoodInput(x, p) && InputsCompared(x)
    ensures Get(Get(LiveInputs(x), p), "sha256") == Get(MarkerInputs(x), p)
  {
    NoCause(x, order, RemoteWorkspaceMarkerBuildInputsInvalid);
    NoCause(x, order, RemoteBuildInputAuditInvalid);
    NoCause(x, order, RemoteBuildInputMarkerHashMismatch);
    hide *;
    LinksOfInput(x, p);
  }

  lemma LinksOfInput(x: Case, p: string)
    requires p in x.tables.inputs
    requires !InputCause(x, RemoteWorkspaceMarkerBuildInputsInvalid) && !InputCause(x, RemoteBuildInputAuditInvalid)
             && !InputCause(x, RemoteBuildInputMarkerHashMismatch)
    ensures ValidSha256(Get(MarkerInputs(x), p)) && GoodInput(x, p) && InputsCompared(x)
    ensures Get(Get(LiveInputs(x), p), "sha256") == Get(MarkerInputs(x), p)
  {
    hide Marker, LiveInputs, MarkerInputs, GoodInput, Equal;
    var m := MarkerInputs(x);
    assert p in m.fields && Get(m, p) == m.fields[p];
    assert !InputFault(x, p, RemoteBuildInputAuditInvalid);
    assert !InputFault(x, p, RemoteBuildInputMarkerHashMismatch);
    EqualToText(Get(Get(LiveInputs(x), p), "sha256"), Get(m, p));
  }

  /** The installed manifest lists it under the same hash. */
  lemma ManifestIsMarker(x: Case, order: seq<string>, p: string)
    requires p in x.tables.inputs && Accepted(x, order)
    ensures Readable(Installed(x)) && Listed(x, p).Obj? && Get(Listed(x, p), "sha256") == Get(MarkerInputs(x), p)
  {
    hide Installed, MarkerInputs, GoodInput, LiveInputs, Readable;
    LiveIsMarker(x, order, p);
    NoCause(x, order, PackagedBuildInputHashMismatch);
    NoCause(x, order, InstalledManifestMissing);
    assert !InputFault(x, p, PackagedBuildInputHashMismatch);
    EqualToText(Get(Listed(x, p), "sha256"), Get(MarkerInputs(x), p));
  }

  /** The trusted manifest agrees with the installed one. */
  lemma TrustedIsInstalled(x: Case, order: seq<string>, p: string)
    requires Accepted(x, order)
    ensures Equal(Listed(x, p), TrustedFile(x, p))
    ensures Equal(Get(Listed(x, p), "sha256"), Get(TrustedFile(x, p), "sha256"))
  {
    hide Installed, Trusted, Readable, Get, Equal;
    NoCause(x, order, InstalledManifestMissing);
    NoCause(x, order, TrustedInstalledManifestMissing);
    NoCause(x, order, InstalledManifestTrustedContentMismatch);
    var t := Get(Trusted(x), "manifest");
    EqualGet(Installed(x), t, "files");
    EqualGet(Files(x), Get(t, "files"), p);
    EqualGet(Listed(x, p), TrustedFile(x, p), "sha256");
  }

  /** Every file the manifest lists was audited with its listed size and hash, and no other was. */
  lemma AuditIsManifest(x: Case, order: seq<string>)
    requires Accepted(x, order) && FileOrder(x, order)
    ensures Files(x).Obj? && Get(Audit(x), "files").Obj? && Get(Audit(x), "files").fields.Keys == Files(x).fields.Keys
    ensures forall p :: p in Files(x).fields ==>
              && GoodRecord(p, Listed(x, p)) && GoodAudit(Audited(x, p))
              && Get(Audited(x, p), "sizeBytes") == Get(Listed(x, p), "size_bytes")
              && Get(Audited(x, p), "sha256") == Get(Listed(x, p), "sha256")
  {
    NoCause(x, order, InstalledManifestMissing);
    NoCause(x, order, InstalledManifestFilesInvalid);
    NoCause(x, order, InstalledManifestFileAuditUnreadable);
    NoCause(x, order, InstalledManifestFileSetMismatch);
    NoCause(x, order, InstalledManifestFileSizeMismatch);
    NoCause(x, order, InstalledManifestFileHashMismatch);
    hide *;
    AuditReady(x, order);
    SameFiles(x);
    forall p | p in Files(x).fields
      ensures && GoodRecord(p, Listed(x, p)) && GoodAudit(Audited(x, p))
              && Get(Audited(x, p), "sizeBytes") == Get(Listed(x, p), "size_bytes")
              && Get(Audited(x, p), "sha256") == Get(Listed(x, p), "sha256")
    {
      AuditedFile(x, order, p);
    }
  }

  lemma AuditReady(x: Case, order: seq<string>)
    requires !ManifestCause(x, InstalledManifestMissing) && !FileCause(x, order, InstalledManifestFilesInvalid)
    requires !FileCause(x, order, InstalledManifestFileAuditUnreadable)
             && !FileCause(x, order, InstalledManifestFileSetMismatch)
    ensures Compared(x) && GoodPrefix(x, order, |order|)
  {
    hide Installed, Readable, Get, FilesPresent, AuditReadable, SameFileSet, GoodPrefix, Faulty;
  }

  lemma SameFiles(x: Case)
    requires Compared(x)
    ensures Files(x).Obj? && Get(Audit(x), "files").Obj? && Get(Audit(x), "files").fields.Keys == Files(x).fields.Keys
  {
    hide Installed, Readable, Get, FilesPresent, AuditReadable;
  }

  lemma AuditedFile(x: Case, order: seq<string>, p: string)
    requires !FileCause(x, order, InstalledManifestFileAuditUnreadable)
             && !FileCause(x, order, InstalledManifestFileSizeMismatch)
             && !FileCause(x, order, InstalledManifestFileHashMismatch)
    requires FileOrder(x, order) && Compared(x) && GoodPrefix(x, order, |order|) && Files(x).Obj?
             && p in Files(x).fields
    ensures GoodRecord(p, Listed(x, p)) && GoodAudit(Audited(x, p))
    ensures Get(Audited(x, p), "sizeBytes") == Get(Listed(x, p), "size_bytes")
    ensures Get(Audited(x, p), "sha256") == Get(Listed(x, p), "sha256")
  {
    hide Installed, Readable, Get, GoodRecord, GoodAudit, Audited, Listed, Files, Audit, Compared;
    assert p in order;
    var i :| 0 <= i < |order| && order[i] == p;
    assert GoodPrefix(x, order, i + 1);
    assert !FileFault(x, order[i], InstalledManifestFileAuditUnreadable);
    assert !FileFault(x, order[i], InstalledManifestFileSizeMismatch);
    assert !FileFault(x, order[i], InstalledManifestFileHashMismatch);
  }

  /** For every packaged build input the live file, the build-time marker, the trusted manifest, the
    * installed manifest and the audited installed file carry one and the same well-formed hash. */
  lemma HashesChain(x: Case, order: seq<string>, p: string)
    requires Accepted(x, order) && FileOrder(x, order) && p in x.tables.inputs
    ensures var h := Get(MarkerInputs(x), p);
            && ValidSha256(h)
            && Get(Get(LiveInputs(x), p), "sha256") == h
            && Get(TrustedFile(x, p), "sha256") == h
            && Get(Listed(x, p), "sha256") == h
            && Get(Audited(x, p), "sha256") == h
            && Get(Audited(x, p), "sizeBytes") == Get(Listed(x, p), "size_bytes")
  {
    LiveIsMarker(x, order, p);
    ManifestIsMarker(x, order, p);
    TrustedIsInstalled(x, order, p);
    AuditIsManifest(x, order);
    EqualToText(Get(Listed(x, p), "sha256"), Get(TrustedFile(x, p), "sha256"));
    ListedIsKey(x, p);
  }

  lemma ListedIsKey(x: Case, p: string)
    requires Listed(x, p).Obj?
    ensures Files(x).Obj? && p in Files(x).fields
  {
  }

  /** Exactly one OBC process, one radio process and one launcher run. The OBC process executes the
    * release's bin/OBC and its hash is the one the marker recorded when bin/OBC was built; the radio
    * process executes the hash the manifest lists; nothing else but a shell runs. */
  lemma OneObcAsBuilt(x: Case, order: seq<string>)
    requires Accepted(x, order) && FileOrder(x, order) && "bin/OBC" in x.tables.inputs
    ensures TreeRead(x)
    ensures Count(Processes(x).items, r => Runs(r, ReleasePath(x) + "/bin/OBC")) == 1
    ensures Count(Processes(x).items, r => Runs(r, ReleasePath(x) + "/bin/radio_mock_server")) == 1
    ensures Count(Processes(x).items, r => Launches(r, LaunchScript(x))) == 1
    ensures forall r :: r in Processes(x).items ==> GoodProcess(r) && ExpectedProcess(x, r)
    ensures forall r :: r in Processes(x).items && Runs(r, ReleasePath(x) + "/bin/OBC") ==>
              Get(r, "executableSha256") == Get(MarkerInputs(x), "bin/OBC")
    ensures forall r :: r in Processes(x).items && Runs(r, ReleasePath(x) + "/bin/radio_mock_server") ==>
              Get(r, "executableSha256") == Get(Listed(x, "bin/radio_mock_server"), "sha256")
  {
    PointerIsRelease(x, order);
    ObcHashIsMarker(x, order);
    ProcessesAsExpected(x, order);
    hide Accepted, Obc, Radio, ReleasePath, LaunchScript, TreeRead, Processes, ObcHash, MarkerInputs, GoodProcess,
      ExpectedProcess, Count, Files;
  }

  lemma PointerIsRelease(x: Case, order: seq<string>)
    requires Accepted(x, order)
    ensures Pointer(x) == ReleasePath(x)
    ensures Obc(x) == ReleasePath(x) + "/bin/OBC" && Radio(x) == ReleasePath(x) + "/bin/radio_mock_server"
  {
    hide ReleasePath, ReleaseId;
    NoCause(x, order, InstalledReleasePointerMismatch);
  }

  /** The audited hash of the running release's OBC is the marker's. */
  lemma ObcHashIsMarker(x: Case, order: seq<string>)
    requires Accepted(x, order) && "bin/OBC" in x.tables.inputs
    ensures Str(ObcHash(x)) == Get(MarkerInputs(x), "bin/OBC")
  {
    hide ObcHash, MarkerInputs, Installed, Readable, Get;
    ManifestIsMarker(x, order, "bin/OBC");
    NoCause(x, order, InstalledObcHashMismatch);
  }

  lemma ProcessesAsExpected(x: Case, order: seq<string>)
    requires Accepted(x, order)
    ensures TreeRead(x)
    ensures Count(Processes(x).items, r => Runs(r, Obc(x))) == 1
    ensures Count(Processes(x).items, r => Runs(r, Radio(x))) == 1
    ensures Count(Processes(x).items, r => Launches(r, LaunchScript(x))) == 1
    ensures forall r :: r in Processes(x).items ==> ProcessAsExpected(x, r)
  {
    LaunchAccepted(x, order);
    NoCause(x, order, ServiceProcessTreeMissing);
    NoCause(x, order, ServiceObcProcessMismatch);
    NoCause(x, order, ServiceRadioProcessMismatch);
    NoCause(x, order, ServiceLauncherProcessMismatch);
    NoCause(x, order, ServiceProcessTreeUnreadable);
    NoCause(x, order, ServiceProcessExecutableUnexpected);
    NoCause(x, order, ServiceProcessObcHashMismatch);
    NoCause(x, order, ServiceProcessRadioHashMismatch);
    hide *;
    CountsSound(x);
    NoFault(x, ServiceProcessTreeUnreadable);
    NoFault(x, ServiceProcessExecutableUnexpected);
    NoFault(x, ServiceProcessObcHashMismatch);
    NoFault(x, ServiceProcessRadioHashMismatch);
    forall r | r in Processes(x).items ensures ProcessAsExpected(x, r) {
      ProcessSound(x, r);
    }
  }

  predicate ProcessAsExpected(x: Case, r: Json) {
    && GoodProcess(r) && ExpectedProcess(x, r)
    && (Runs(r, Obc(x)) ==> Get(r, "executableSha256") == Str(ObcHash(x)))
    && (Runs(r, Radio(x)) ==> Get(r, "executableSha256") == RadioHash(x))
  }

  lemma LaunchAccepted(x: Case, order: seq<string>)
    requires Accepted(x, order)
    ensures LaunchRead(x)
  {
    hide UnitUsable, Readable, Launch, LaunchFiles;
    NoCause(x, order, TrustedServiceUnitMissing);
    NoCause(x, order, ServiceLaunchAuditUnreadable);
    NoCause(x, order, ServiceLaunchFilesUnreadable);
  }

  lemma CountsSound(x: Case)
    requires LaunchRead(x) && !ServiceCause(x, ServiceProcessTreeMissing)
    requires !ServiceCause(x, ServiceObcProcessMismatch) && !ServiceCause(x, ServiceRadioProcessMismatch)
             && !ServiceCause(x, ServiceLauncherProcessMismatch)
    ensures TreeRead(x)
    ensures Count(Processes(x).items, r => Runs(r, Obc(x))) == 1
    ensures Count(Processes(x).items, r => Runs(r, Radio(x))) == 1
    ensures Count(Processes(x).items, r => Launches(r, LaunchScript(x))) == 1
  {
    hide LaunchRead, Processes, UnitCause, ShowCause, Obc, Radio, LaunchScript, Count, Launches, Runs, TreeRead;
  }

  lemma NoFault(x: Case, c: Code)
    requires TreeRead(x) && !ServiceCause(x, c)
    ensures forall r :: r in Processes(x).items ==> !ProcessFault(x, r, c)
  {
    hide Processes, UnitCause, ShowCause, Obc, Radio, LaunchScript, Count, Launches, Runs, TreeRead, GoodProcess;
  }

  lemma ProcessSound(x: Case, r: Json)
    requires !ProcessFault(x, r, ServiceProcessTreeUnreadable)
             && !ProcessFault(x, r, ServiceProcessExecutableUnexpected)
             && !ProcessFault(x, r, ServiceProcessObcHashMismatch)
             && !ProcessFault(x, r, ServiceProcessRadioHashMismatch)
    ensures ProcessAsExpected(x, r)
  {
    hide Obc, Radio, ExpectedProcess, Files, RadioHash;
  }

  // ---- the order of the records ----

  /** Acceptance does not depend on the order the manifest's records are read in. */
  lemma AcceptedInAnyOrder(x: Case, first: seq<string>, second: seq<string>)
    requires Accepted(x, first) && FileOrder(x, first) && FileOrder(x, second)
    ensures Accepted(x, second)
  {
    AuditIsManifest(x, first);
    forall c ensures !Cause(x, second, c) {
      NoCause(x, first, c);
      hide *;
      CauseInOrder(x, first, second, c);
    }
  }

  lemma CauseInOrder(x: Case, first: seq<string>, second: seq<string>, c: Code)
    requires FileOrder(x, first) && FileOrder(x, second) && Files(x).Obj?
    requires forall p :: p in Files(x).fields ==>
               && GoodRecord(p, Listed(x, p)) && GoodAudit(Audited(x, p))
               && Get(Audited(x, p), "sizeBytes") == Get(Listed(x, p), "size_bytes")
               && Get(Audited(x, p), "sha256") == Get(Listed(x, p), "sha256")
    requires !Cause(x, first, c)
    ensures !Cause(x, second, c)
  {
    hide LocalCause, MarkerCause, ContentCause, BuildCause, ManifestCause, ReleaseCause, InputCause, ServiceCause,
      Captured, Readable, Installed, FilesPresent, AuditReadable, SameFileSet, GoodRecord, GoodAudit, Files, Audited,
      Listed, Get;
    forall i | 0 <= i < |second|
      ensures GoodRecord(second[i], Listed(x, second[i])) && !FileFault(x, second[i], c)
    {
      assert second[i] in second;
    }
    assert GoodPrefix(x, second, |second|);
    assert !Faulty(x, second, c);
  }

  // ---- the workspaces ----

  /** The three content digests and file counts agree. */
  lemma ContentAgrees(x: Case, order: seq<string>)
    requires Accepted(x, order)
    ensures Get(RemoteContent(x), "digest") == Get(LocalContent(x), "digest") == Get(MarkerContent(x), "digest")
    ensures ValidSha256(Get(LocalContent(x), "digest"))
  {
    hide LocalContent, RemoteContent, MarkerContent, ValidTrackedPaths, ValidSha256, Equal;
    NoCause(x, order, LocalTrackedContentAuditMissing);
    NoCause(x, order, RemoteWorkspaceContentManifestInvalid);
    NoCause(x, order, RemoteWorkspaceContentMarkerMismatch);
    NoCause(x, order, RemoteWorkspaceContentUnreadable);
    NoCause(x, order, RemoteWorkspaceContentMismatch);
    EqualGet(RemoteContent(x), LocalContent(x), "digest");
    EqualGet(WithoutPaths(MarkerContent(x)), LocalContent(x), "digest");
    DigestKept(MarkerContent(x));
    DigestText(Get(RemoteContent(x), "digest"), Get(LocalContent(x), "digest"));
    DigestText(Get(MarkerContent(x), "digest"), Get(LocalContent(x), "digest"));
  }

  lemma DigestKept(j: Json)
    ensures Get(WithoutPaths(j), "digest") == Get(j, "digest")
  {
  }

  lemma DigestText(a: Json, b: Json)
    requires Equal(a, b) && ValidSha256(b)
    ensures a == b
  {
  }

  /** Under a hash without collisions among the inputs at hand, an accepted check means the live remote
    * workspace holds exactly the local revision's tracked files: same paths, kinds, modes, contents. */
  lemma WorkspacesIdentical(x: Case, order: seq<string>, sha: ContentDigest.Hash, tag: seq<byte>,
                            here: ContentDigest.Tree, hs: seq<ContentDigest.Field>,
                            there: ContentDigest.Tree, ts: seq<ContentDigest.Field>)
    requires Accepted(x, order)
    requires ContentDigest.AllTrackable(here, hs) && ContentDigest.AllTrackable(there, ts)
    requires Get(LocalContent(x), "digest")
             == Str(ContentDigest.HexDigest(ContentDigest.Summarize(sha, tag, here, hs).value.digest))
    requires Get(RemoteContent(x), "digest")
             == Str(ContentDigest.HexDigest(ContentDigest.Summarize(sha, tag, there, ts).value.digest))
    requires ContentDigest.CollisionFree(sha,
                                         ContentDigest.Inputs(sha, tag, here, hs)
                                           + ContentDigest.Inputs(sha, tag, there, ts))
    ensures hs == ts && forall p :: p in hs ==> ContentDigest.NodeAt(here, p) == ContentDigest.NodeAt(there, p)
  {
    ContentAgrees(x, order);
    hide ContentDigest.HexDigest, LocalContent, RemoteContent, ContentDigest.AllTrackable, ContentDigest.Inputs,
      ContentDigest.CollisionFree, ContentDigest.NodeAt, ContentDigest.Preimage;
    ContentDigest.HexInjective(ContentDigest.Summarize(sha, tag, here, hs).value.digest,
                 ContentDigest.Summarize(sha, tag, there, ts).value.digest);
    ContentDigest.EqualDigestsMeanEqualTrees(sha, tag, here, hs, there, ts);
  }
}
