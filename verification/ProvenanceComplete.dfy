/** The provenance check accepts something: every target captured as the documents below is accepted when
  * its facts agree. The documents have one shape: three processes, a workspace without a git head, and no
  * fields beyond those the check reads. */
module ProvenanceComplete {
  import opened Json
  import opened Provenance
  import PosixPath

  datatype File = File(size: nat, hash: string)

  /** A deployment with every fact stated once. */
  datatype Target = Target(
    branch: string, head: string, version: string, releaseId: string, workspace: string, root: string,
    digest: string, paths: seq<string>, files: map<string, File>, manifestHash: string, unit: File, shellHash: string)

  predicate Sha(s: string) {
    ValidSha256(Str(s))
  }

  predicate SortedSafe(paths: seq<string>) {
    && (forall i :: 0 <= i < |paths| ==> PosixPath.Safe(paths[i]))
    && (forall i, k :: 0 <= i < k < |paths| ==> PosixPath.Less(paths[i], paths[k]))
  }

  /** What the tools guarantee of such a deployment: a clean revision, a release name, safe paths, hashes that
    * are hashes, all packaged inputs and both programs among the installed files, no drop-in listed twice. */
  predicate Sound(t: Target, tables: Deployment) {
    && t.branch != "" && |t.head| == 40 && Hex(t.head) && t.version != "" && !EndsWith(t.version, "-dirty")
    && t.releaseId != "" && Sha(t.digest) && SortedSafe(t.paths) && Sha(t.manifestHash) && Sha(t.unit.hash)
    && Sha(t.shellHash)
    && (forall p :: p in t.files ==> PosixPath.Safe(p) && Sha(t.files[p].hash))
    && (forall p :: p in tables.inputs ==> p in t.files) && "bin/OBC" in t.files && "bin/radio_mock_server" in t.files
    && (forall i, k :: 0 <= i < k < |tables.dropins| ==> tables.dropins[i].name != tables.dropins[k].name)
  }

  // ---- its documents ----

  function Summary(t: Target): Json {
    Obj(map["format" := Str(TRACKED_CONTENT_FORMAT), "algorithm" := Str("sha256"), "fileCount" := Int(|t.paths|),
            "digest" := Str(t.digest)])
  }

  function MarkerSummary(t: Target): Json {
    Obj(Summary(t).fields["paths" := Arr(seq(|t.paths|, i requires 0 <= i < |t.paths| => Str(t.paths[i])))])
  }

  function FileDoc(f: File): Json { Obj(map["size_bytes" := Int(f.size), "sha256" := Str(f.hash)]) }
  function AuditDoc(f: File): Json { Obj(map["sizeBytes" := Int(f.size), "sha256" := Str(f.hash)]) }

  function ManifestDoc(t: Target): Json {
    Obj(map["project_version" := Str(t.version), "source_remote_dir" := Str(t.workspace),
            "release_id" := Str(t.releaseId), "files" := FilesDoc(t)])
  }

  function FilesDoc(t: Target): Json { Obj(map p | p in t.files :: FileDoc(t.files[p])) }
  function AuditsDoc(t: Target): Json { Obj(map p | p in t.files :: AuditDoc(t.files[p])) }
  function TrustedDoc(t: Target): Json { Obj(map["sha256" := Str(t.manifestHash), "manifest" := ManifestDoc(t)]) }

  function LocalDoc(t: Target): Json {
    Obj(map["branch" := Str(t.branch), "head" := Str(t.head), "projectVersion" := Str(t.version),
            "unexpectedUntrackedPaths" := Arr([]), "trackedContent" := Summary(t),
            "trustedInstalledManifest" := TrustedDoc(t),
            "trustedServiceUnit" := AuditDoc(t.unit)])
  }

  function MarkerDoc(t: Target, tables: Deployment): Json
    requires forall p :: p in tables.inputs ==> p in t.files
  {
    Obj(map["schemaVersion" := Int(3), "branch" := Str(t.branch), "head" := Str(t.head),
            "projectVersion" := Str(t.version), "trackedContent" := MarkerSummary(t),
            "builtInputSha256" := BuiltDoc(t, tables)])
  }

  function BuiltDoc(t: Target, tables: Deployment): Json
    requires forall p :: p in tables.inputs ==> p in t.files
  {
    Obj(map p | p in tables.inputs :: Str(t.files[p].hash))
  }

  function InputDoc(t: Target, path: string, f: File): Json {
    Obj(map["path" := Str(PosixPath.Under(t.workspace, [path])), "sha256" := Str(f.hash)])
  }

  function FileAudit(t: Target): Json {
    Obj(map["format" := Str("route1-installed-manifest-files-v1"),
            "files" := AuditsDoc(t)])
  }

  function Release(t: Target): string { PosixPath.Under(t.root, ["releases", t.releaseId]) }
  function Script(t: Target): string { t.root + "/current/launch/run_obc_comm_csp_stack.sh" }

  function Process(argv: seq<Json>, executable: string, hash: string): Json {
    Obj(map["argv" := Arr(argv), "executable" := Str(executable), "executableSha256" := Str(hash)])
  }

  function Tree(t: Target): seq<Json>
    requires "bin/OBC" in t.files && "bin/radio_mock_server" in t.files
  {
    [Process([Str(Script(t))], "/usr/bin/bash", t.shellHash),
     Process([], Release(t) + "/bin/OBC", t.files["bin/OBC"].hash),
     Process([], Release(t) + "/bin/radio_mock_server", t.files["bin/radio_mock_server"].hash)]
  }

  /** The receipt of a file systemd loads: the unit's, or the drop-in's of that path. */
  function Receipt(t: Target, tables: Deployment, sha: string -> string, fragment: string, path: string): Json {
    if path == fragment then AuditDoc(t.unit) else DropInReceipt(tables.dropins, sha, fragment, path)
  }

  function DropInReceipt(ds: seq<DropIn>, sha: string -> string, fragment: string, path: string): Json {
    if ds == [] then Null
    else if fragment + ".d/" + ds[0].name == path then AuditDoc(File(|ds[0].content|, sha(ds[0].content)))
    else DropInReceipt(ds[1..], sha, fragment, path)
  }

  function Loaded(tables: Deployment, fragment: string): set<string> {
    {fragment} + (set d | d in tables.dropins :: fragment + ".d/" + d.name)
  }

  function Receipts(t: Target, tables: Deployment, sha: string -> string, fragment: string): Json {
    Obj(map p | p in Loaded(tables, fragment) :: Receipt(t, tables, sha, fragment, p))
  }

  function LaunchDoc(t: Target, tables: Deployment, sha: string -> string): Json
    requires "bin/OBC" in t.files && "bin/radio_mock_server" in t.files
  {
    var fragment := "/etc/systemd/system/" + tables.service;
    Obj(map["service" := Str(tables.service), "files" := Receipts(t, tables, sha, fragment),
            "dropInPaths" := DropInDocs(tables, fragment), "show" := ShowDoc(t, fragment),
            "processTree" := Arr(Tree(t))])
  }

  function DropInDocs(tables: Deployment, fragment: string): Json {
    Arr(seq(|tables.dropins|, i requires 0 <= i < |tables.dropins| => Str(fragment + ".d/" + tables.dropins[i].name)))
  }

  function ShowDoc(t: Target, fragment: string): Json {
    Obj(map["FragmentPath" := Str(fragment), "WorkingDirectory" := Str(t.root + "/current"),
            "ExecStart" := Str(Script(t))])
  }

  function VersionDoc(t: Target): Json { Obj(map["project_version" := Str(t.version)]) }

  function WorkspacePart(t: Target, tables: Deployment, sha: string -> string): map<string, Json>
    requires Sound(t, tables)
  {
    map["workspaceMarker" := MarkerDoc(t, tables), "workspaceTrackedContent" := Summary(t),
        "remoteBuildMetadata" := VersionDoc(t), "remoteBuildInputs" := InputDocs(t, tables),
        "serviceLaunchAudit" := LaunchDoc(t, tables, sha)]
  }

  function InputDocs(t: Target, tables: Deployment): Json
    requires forall p :: p in tables.inputs ==> p in t.files
  {
    Obj(map p | p in tables.inputs :: InputDoc(t, tables.inputs[p], t.files[p]))
  }

  function InstalledPart(t: Target): map<string, Json>
    requires "bin/OBC" in t.files
  {
    map["installedManifest" := ManifestDoc(t), "installedManifestSha256" := Str(t.manifestHash),
        "installedManifestFileAudit" := FileAudit(t), "installedBuildMetadata" := VersionDoc(t),
        "installedReleasePointer" := Str(Release(t)), "installedObcPath" := Str(Release(t) + "/bin/OBC"),
        "installedObcSha256" := Str(t.files["bin/OBC"].hash)]
  }

  function RemoteDoc(t: Target, tables: Deployment, sha: string -> string): Json
    requires Sound(t, tables)
  {
    Obj(WorkspacePart(t, tables, sha) + InstalledPart(t))
  }

  function CaseOf(t: Target, tables: Deployment, sha: string -> string, repr: Json -> string): Case
    requires Sound(t, tables)
  {
    Case(LocalDoc(t), RemoteDoc(t, tables, sha), t.workspace, t.root, tables, sha, repr)
  }

  // ---- their fields ----

  lemma LocalFields(t: Target)
    ensures var d := LocalDoc(t);
            && Get(d, "branch") == Str(t.branch) && Get(d, "head") == Str(t.head)
            && Get(d, "projectVersion") == Str(t.version)
            && Get(d, "unexpectedUntrackedPaths") == Arr([]) && Get(d, "trackedContent") == Summary(t)
            && Get(d, "trustedInstalledManifest") == TrustedDoc(t)
            && Get(d, "trustedServiceUnit") == AuditDoc(t.unit)
  {
    hide Summary, TrustedDoc, AuditDoc;
  }

  lemma InstalledKeys(t: Target)
    requires "bin/OBC" in t.files
    ensures forall k :: k in InstalledPart(t) ==> k != "" && k[0] == 'i'
  {
    hide ManifestDoc, VersionDoc, FileAudit, Release;
  }

  lemma OutsideInstalled(a: map<string, Json>, b: map<string, Json>, key: string)
    requires key != "" && key[0] != 'i' && forall k :: k in b ==> k != "" && k[0] == 'i'
    ensures Get(Obj(a + b), key) == Get(Obj(a), key)
  {
  }

  lemma WorkspacePresent(t: Target, tables: Deployment, sha: string -> string)
    requires Sound(t, tables)
    ensures var d := Obj(WorkspacePart(t, tables, sha));
            && Get(d, "workspaceMarker") == MarkerDoc(t, tables) && Get(d, "workspaceTrackedContent") == Summary(t)
            && Get(d, "remoteBuildMetadata") == VersionDoc(t) && Get(d, "remoteBuildInputs") == InputDocs(t, tables)
            && Get(d, "serviceLaunchAudit") == LaunchDoc(t, tables, sha)
  {
    hide Summary, MarkerDoc, VersionDoc, InputDocs, LaunchDoc;
  }

  lemma WorkspaceAbsent(t: Target, tables: Deployment, sha: string -> string)
    requires Sound(t, tables)
    ensures var d := Obj(WorkspacePart(t, tables, sha));
            Get(d, "captureError") == Null && Get(d, "workspaceGitError") == Null && Get(d, "workspaceGitHead") == Null
  {
    hide Summary, MarkerDoc, VersionDoc, InputDocs, LaunchDoc;
  }

  lemma WorkspaceFields(t: Target, tables: Deployment, sha: string -> string)
    requires Sound(t, tables)
    ensures var d := RemoteDoc(t, tables, sha);
            && Get(d, "workspaceMarker") == MarkerDoc(t, tables) && Get(d, "workspaceTrackedContent") == Summary(t)
            && Get(d, "remoteBuildMetadata") == VersionDoc(t) && Get(d, "remoteBuildInputs") == InputDocs(t, tables)
            && Get(d, "serviceLaunchAudit") == LaunchDoc(t, tables, sha)
            && Get(d, "captureError") == Null && Get(d, "workspaceGitError") == Null
            && Get(d, "workspaceGitHead") == Null
  {
    hide Get, Summary, MarkerDoc, VersionDoc, InputDocs, LaunchDoc, InstalledPart, WorkspacePart;
    InstalledKeys(t);
    WorkspacePresent(t, tables, sha);
    WorkspaceAbsent(t, tables, sha);
    var a, b := WorkspacePart(t, tables, sha), InstalledPart(t);
    OutsideInstalled(a, b, "workspaceMarker");
    OutsideInstalled(a, b, "workspaceTrackedContent");
    OutsideInstalled(a, b, "remoteBuildMetadata");
    OutsideInstalled(a, b, "remoteBuildInputs");
    OutsideInstalled(a, b, "serviceLaunchAudit");
    OutsideInstalled(a, b, "captureError");
    OutsideInstalled(a, b, "workspaceGitError");
    OutsideInstalled(a, b, "workspaceGitHead");
  }

  lemma InstalledFields(t: Target, tables: Deployment, sha: string -> string)
    requires Sound(t, tables)
    ensures var d := RemoteDoc(t, tables, sha);
            && Get(d, "installedManifest") == ManifestDoc(t) && Get(d, "installedManifestSha256") == Str(t.manifestHash)
            && Get(d, "installedManifestFileAudit") == FileAudit(t) && Get(d, "installedBuildMetadata") == VersionDoc(t)
            && Get(d, "installedReleasePointer") == Str(Release(t))
            && Get(d, "installedObcPath") == Str(Release(t) + "/bin/OBC")
            && Get(d, "installedObcSha256") == Str(t.files["bin/OBC"].hash)
  {
    hide Sound, ManifestDoc, VersionDoc, FileAudit, Release, WorkspacePart;
  }

  // ---- what the check finds in them ----

  ghost predicate RevisionFound(x: Case, t: Target) {
    Branch(x) == t.branch && Head(x) == t.head && Version(x) == t.version
  }

  lemma FindRevision(x: Case, t: Target)
    requires x.local == LocalDoc(t)
    ensures RevisionFound(x, t)
  {
    LocalFields(t);
    hide Get, LocalDoc;
  }

  lemma LocalHolds(x: Case, t: Target)
    requires RevisionFound(x, t) && Sound(t, x.tables) && Get(x.local, "unexpectedUntrackedPaths") == Arr([])
             && Captured(x)
    ensures forall c :: !LocalCause(x, c)
  {
    hide Get, Branch, Head, Version, Captured, Hex, EndsWith;
  }

  lemma MarkerFields(t: Target, tables: Deployment)
    requires forall p :: p in tables.inputs ==> p in t.files
    ensures var d := MarkerDoc(t, tables);
            && Readable(d) && Get(d, "schemaVersion") == Int(3) && Get(d, "branch") == Str(t.branch)
            && Get(d, "head") == Str(t.head) && Get(d, "projectVersion") == Str(t.version)
            && Get(d, "trackedContent") == MarkerSummary(t) && Get(d, "builtInputSha256") == BuiltDoc(t, tables)
  {
    hide MarkerSummary, BuiltDoc;
  }

  lemma MarkerHolds(x: Case, t: Target)
    requires forall p :: p in x.tables.inputs ==> p in t.files
    requires RevisionFound(x, t) && Marker(x) == MarkerDoc(t, x.tables)
    ensures forall c :: !MarkerCause(x, c)
  {
    hide Get, MarkerDoc, MarkerSummary, BuiltDoc, Branch, Head, Version, Marker, Readable;
    MarkerFields(t, x.tables);
  }

  lemma SummaryFields(t: Target)
    requires Sha(t.digest) && SortedSafe(t.paths)
    ensures ValidSummary(Summary(t)) && ValidSummary(MarkerSummary(t)) && ValidTrackedPaths(MarkerSummary(t))
    ensures WithoutPaths(MarkerSummary(t)) == Summary(t)
  {
    hide PosixPath.Safe, PosixPath.Less, ValidSha256;
    var d := MarkerSummary(t);
    assert Get(d, "fileCount") == Int(|t.paths|) && Get(d, "digest") == Str(t.digest);
    assert Get(d, "paths") == Arr(seq(|t.paths|, i requires 0 <= i < |t.paths| => Str(t.paths[i])));
  }

  lemma ContentHolds(x: Case, t: Target)
    requires Sha(t.digest) && SortedSafe(t.paths)
    requires LocalContent(x) == Summary(t) && RemoteContent(x) == Summary(t) && MarkerContent(x) == MarkerSummary(t)
    ensures forall c :: !ContentCause(x, c)
  {
    hide Summary, MarkerSummary, LocalContent, RemoteContent, MarkerContent, ValidSummary, ValidTrackedPaths,
      WithoutPaths, Equal;
    SummaryFields(t);
    EqualRefl(Summary(t));
  }

  lemma VersionFields(t: Target)
    ensures Get(VersionDoc(t), "project_version") == Str(t.version) && Readable(VersionDoc(t))
  {
  }

  lemma BuildHolds(x: Case, t: Target)
    requires Version(x) == t.version && Get(x.remote, "workspaceGitError") == Null
             && Get(x.remote, "workspaceGitHead") == Null
    requires Get(x.remote, "remoteBuildMetadata") == VersionDoc(t)
             && Get(x.remote, "installedBuildMetadata") == VersionDoc(t)
    ensures forall c :: !BuildCause(x, c)
  {
    hide Get, VersionDoc, Version, Head, Readable;
    VersionFields(t);
  }

  lemma ManifestFields(t: Target)
    ensures var d := ManifestDoc(t);
            && Readable(d) && Get(d, "project_version") == Str(t.version)
            && Get(d, "source_remote_dir") == Str(t.workspace)
            && Get(d, "release_id") == Str(t.releaseId) && Get(d, "files") == FilesDoc(t)
  {
    hide FilesDoc;
  }

  lemma TrustedFields(t: Target)
    ensures var d := TrustedDoc(t);
            Readable(d) && Get(d, "sha256") == Str(t.manifestHash) && Get(d, "manifest") == ManifestDoc(t)
  {
    hide ManifestDoc;
  }

  lemma ManifestHolds(x: Case, t: Target)
    requires Version(x) == t.version && x.workspace == t.workspace && Sha(t.manifestHash)
    requires Installed(x) == ManifestDoc(t) && Trusted(x) == TrustedDoc(t)
             && Get(x.remote, "installedManifestSha256") == Str(t.manifestHash)
    ensures forall c :: !ManifestCause(x, c)
  {
    assert ManifestDoc(t).Obj?;
    hide Get, ManifestDoc, TrustedDoc, Version, Installed, Trusted, Readable, Equal;
    ManifestFields(t);
    TrustedFields(t);
    EqualRefl(ManifestDoc(t));
  }

  // ---- the installed files ----

  lemma AuditFields(t: Target)
    ensures var d := FileAudit(t);
            && Readable(d) && Get(d, "format") == Str("route1-installed-manifest-files-v1")
            && Get(d, "files") == AuditsDoc(t)
  {
    hide AuditsDoc;
  }

  lemma FileFields(f: File)
    ensures FileDoc(f).Obj? && Get(FileDoc(f), "size_bytes") == Int(f.size) && Get(FileDoc(f), "sha256") == Str(f.hash)
    ensures Readable(AuditDoc(f)) && Get(AuditDoc(f), "sizeBytes") == Int(f.size)
            && Get(AuditDoc(f), "sha256") == Str(f.hash)
  {
  }

  lemma FileMatches(x: Case, t: Target, p: string)
    requires Files(x) == FilesDoc(t) && Get(Audit(x), "files") == AuditsDoc(t)
    requires p in t.files && PosixPath.Safe(p) && Sha(t.files[p].hash)
    ensures GoodRecord(p, Listed(x, p)) && forall c :: !FileFault(x, p, c)
  {
    hide Files, Audit, FileDoc, AuditDoc, PosixPath.Safe, Readable, ValidSha256;
    FileFields(t.files[p]);
    assert Listed(x, p) == FileDoc(t.files[p]) && Audited(x, p) == AuditDoc(t.files[p]);
    hide Get;
  }

  lemma FilesHold(x: Case, order: seq<string>, t: Target)
    requires FileOrder(x, order) && "bin/OBC" in t.files
    requires forall p :: p in t.files ==> PosixPath.Safe(p) && Sha(t.files[p].hash)
    requires Installed(x) == ManifestDoc(t) && Audit(x) == FileAudit(t)
             && Get(x.remote, "installedManifestSha256") == Str(t.manifestHash) && Sha(t.manifestHash)
    ensures forall c :: !FileCause(x, order, c)
  {
    ManifestFields(t);
    AuditFields(t);
    assert Files(x) == FilesDoc(t) && Get(Audit(x), "files") == AuditsDoc(t);
    hide *;
    FilesCompared(x, t);
    OrderInFiles(x, order, t);
    forall i | 0 <= i < |order|
      ensures GoodRecord(order[i], Listed(x, order[i])) && forall c :: !FileFault(x, order[i], c)
    {
      FileMatches(x, t, order[i]);
    }
    NoFileCause(x, order);
  }

  lemma OrderInFiles(x: Case, order: seq<string>, t: Target)
    requires FileOrder(x, order) && Files(x) == FilesDoc(t)
    ensures forall i :: 0 <= i < |order| ==> order[i] in t.files
  {
    hide Files, FileDoc;
    forall i | 0 <= i < |order| ensures order[i] in t.files { assert order[i] in order; }
  }

  lemma FilesCompared(x: Case, t: Target)
    requires Files(x) == FilesDoc(t) && Get(Audit(x), "files") == AuditsDoc(t) && "bin/OBC" in t.files
    requires Readable(Audit(x)) && Get(Audit(x), "format") == Str("route1-installed-manifest-files-v1")
    ensures FilesPresent(x) && AuditReadable(x) && SameFileSet(x)
  {
    hide Files, Audit, FileDoc, AuditDoc, Readable, Get;
    assert "bin/OBC" in FilesDoc(t).fields;
    assert FilesDoc(t).fields.Keys == AuditsDoc(t).fields.Keys;
  }

  lemma NoFileCause(x: Case, order: seq<string>)
    requires FilesPresent(x) && AuditReadable(x) && SameFileSet(x)
             && ValidSha256(Get(x.remote, "installedManifestSha256"))
    requires forall i :: 0 <= i < |order| ==>
               GoodRecord(order[i], Listed(x, order[i])) && forall c :: !FileFault(x, order[i], c)
    ensures forall c :: !FileCause(x, order, c)
  {
    hide FilesPresent, AuditReadable, SameFileSet, ValidSha256, Get, GoodRecord, Listed, FileFault, Readable,
      Installed;
    assert GoodPrefix(x, order, |order|);
    assert forall c :: !Faulty(x, order, c);
  }

  // ---- the release and its build inputs ----

  lemma ReleaseFound(x: Case, t: Target)
    requires Installed(x) == ManifestDoc(t) && x.root == t.root && t.releaseId != ""
    ensures Manifest(x) == ManifestDoc(t) && ReleaseId(x) == t.releaseId && ReleasePath(x) == Release(t)
  {
    hide Get, ManifestDoc, Installed, PosixPath.Under, Readable;
    ManifestFields(t);
  }

  lemma ListedHash(t: Target, p: string)
    requires p in t.files
    ensures Get(FilesDoc(t), p) == FileDoc(t.files[p]) && Get(Get(FilesDoc(t), p), "sha256") == Str(t.files[p].hash)
  {
    hide FileDoc;
    FileFields(t.files[p]);
  }

  lemma ReleaseHolds(x: Case, t: Target)
    requires Installed(x) == ManifestDoc(t) && x.root == t.root && t.releaseId != "" && "bin/OBC" in t.files
    requires Sha(t.files["bin/OBC"].hash) && Get(x.remote, "installedReleasePointer") == Str(Release(t))
    requires Get(x.remote, "installedObcPath") == Str(Release(t) + "/bin/OBC")
    requires Get(x.remote, "installedObcSha256") == Str(t.files["bin/OBC"].hash)
    ensures forall c :: !ReleaseCause(x, c)
    ensures Pointer(x) == Release(t)
  {
    hide Get, ManifestDoc, FilesDoc, Installed, Release, ReleasePath, ReleaseId, Manifest, Hex;
    ReleaseFound(x, t);
    ManifestFields(t);
    ListedHash(t, "bin/OBC");
    assert Release(t) + "/" <= Release(t) + "/bin/OBC" by {
      assert "/bin/OBC" == "/" + "bin/OBC";
      assert Release(t) + "/bin/OBC" == Release(t) + "/" + "bin/OBC";
    }
  }

  lemma InputMatches(x: Case, t: Target, p: string)
    requires forall q :: q in x.tables.inputs ==> q in t.files
    requires p in x.tables.inputs && Sha(t.files[p].hash) && x.workspace == t.workspace
    requires Manifest(x) == ManifestDoc(t) && MarkerInputs(x) == BuiltDoc(t, x.tables)
             && LiveInputs(x) == InputDocs(t, x.tables)
    ensures forall c :: !InputFault(x, p, c)
  {
    var h := t.files[p].hash;
    var d := InputDoc(t, x.tables.inputs[p], t.files[p]);
    assert Get(LiveInputs(x), p) == d && Get(MarkerInputs(x), p) == Str(h) by {
      hide MarkerInputs, LiveInputs, InputDoc, Manifest;
    }
    InputFields(t, x.tables.inputs[p], t.files[p]);
    ManifestFields(t);
    ListedHash(t, p);
    FileFields(t.files[p]);
    EqualRefl(Str(h));
    hide *;
    InputClean(x, t, p, d);
  }

  lemma InputFields(t: Target, path: string, f: File)
    ensures var d := InputDoc(t, path, f);
            d.Obj? && Get(d, "path") == Str(PosixPath.Under(t.workspace, [path])) && Get(d, "sha256") == Str(f.hash)
  {
    hide PosixPath.Under;
  }

  lemma InputClean(x: Case, t: Target, p: string, d: Json)
    requires p in x.tables.inputs && p in t.files && Sha(t.files[p].hash) && x.workspace == t.workspace
    requires Get(LiveInputs(x), p) == d && Get(MarkerInputs(x), p) == Str(t.files[p].hash)
    requires d.Obj? && Get(d, "path") == Str(PosixPath.Under(t.workspace, [x.tables.inputs[p]]))
             && Get(d, "sha256") == Str(t.files[p].hash)
    requires Manifest(x) == ManifestDoc(t) && Get(ManifestDoc(t), "files") == FilesDoc(t)
    requires Get(FilesDoc(t), p) == FileDoc(t.files[p]) && FileDoc(t.files[p]).Obj?
             && Get(FileDoc(t.files[p]), "sha256") == Str(t.files[p].hash)
    requires Equal(Str(t.files[p].hash), Str(t.files[p].hash))
    ensures forall c :: !InputFault(x, p, c)
  {
    hide Get, ManifestDoc, FilesDoc, FileDoc, LiveInputs, MarkerInputs, Manifest, Equal, PosixPath.Under, ValidSha256;
  }

  lemma InputsHold(x: Case, t: Target)
    requires forall q :: q in x.tables.inputs ==> q in t.files && Sha(t.files[q].hash)
    requires x.workspace == t.workspace && Manifest(x) == ManifestDoc(t)
    requires MarkerInputs(x) == BuiltDoc(t, x.tables) && LiveInputs(x) == InputDocs(t, x.tables)
    ensures forall c :: !InputCause(x, c)
  {
    hide Manifest, ManifestDoc, MarkerInputs, LiveInputs, InputDoc, ValidSha256, InputFault;
    forall p | p in x.tables.inputs ensures forall c :: !InputFault(x, p, c) {
      InputMatches(x, t, p);
    }
    assert MarkerInputsValid(x);
    assert Keyed(LiveInputs(x), x);
    assert forall c :: !InputFaulty(x, c);
  }

  // ---- the service ----

  lemma LaunchFields(t: Target, tables: Deployment, sha: string -> string)
    requires "bin/OBC" in t.files && "bin/radio_mock_server" in t.files
    ensures var d := LaunchDoc(t, tables, sha); var fragment := "/etc/systemd/system/" + tables.service;
            && Readable(d) && Get(d, "service") == Str(tables.service)
            && Get(d, "files") == Receipts(t, tables, sha, fragment)
            && Get(d, "dropInPaths") == DropInDocs(tables, fragment) && Get(d, "show") == ShowDoc(t, fragment)
            && Get(d, "processTree") == Arr(Tree(t))
  {
    hide Receipts, DropInDocs, ShowDoc, Tree;
  }

  lemma ShowFields(t: Target, fragment: string)
    ensures var d := ShowDoc(t, fragment);
            && d.Obj? && Get(d, "FragmentPath") == Str(fragment)
            && Get(d, "WorkingDirectory") == Str(t.root + "/current")
            && Get(d, "ExecStart") == Str(Script(t))
  {
    hide Script;
  }

  lemma ShowHolds(x: Case, t: Target)
    requires Get(Launch(x), "show") == ShowDoc(t, Fragment(x)) && x.root == t.root
    ensures forall c :: !ShowCause(x, c)
  {
    assert LaunchScript(x) == Script(t);
    ContainsItself(Script(t));
    hide Get, Launch, ShowDoc, Fragment, Script, LaunchScript, Contains, LaunchRead;
    ShowFields(t, Fragment(x));
  }

  lemma ContainsItself(s: string)
    ensures Contains(s, s)
  {
    assert s[0..] == s;
  }

  lemma ReceiptOf(ds: seq<DropIn>, sha: string -> string, fragment: string, i: nat)
    requires i < |ds| && forall j, k :: 0 <= j < k < |ds| ==> ds[j].name != ds[k].name
    ensures DropInReceipt(ds, sha, fragment, fragment + ".d/" + ds[i].name)
            == AuditDoc(File(|ds[i].content|, sha(ds[i].content)))
    decreases |ds|
  {
    hide AuditDoc;
    if i > 0 {
      SuffixesDiffer(fragment + ".d/", ds[0].name, ds[i].name);
      ReceiptOf(ds[1..], sha, fragment, i - 1);
    }
  }

  lemma SuffixesDiffer(front: string, a: string, b: string)
    requires a != b
    ensures front + a != front + b
  {
    assert (front + a)[|front|..] == a && (front + b)[|front|..] == b;
  }

  lemma ReceiptsHold(x: Case, t: Target)
    requires Get(Launch(x), "files") == Receipts(t, x.tables, x.sha, Fragment(x)) && Unit(x) == AuditDoc(t.unit)
    requires forall j, k :: 0 <= j < k < |x.tables.dropins| ==> x.tables.dropins[j].name != x.tables.dropins[k].name
    ensures LaunchFiles(x).Obj? && LaunchFiles(x).fields.Keys == ExpectedFiles(x)
    ensures Get(LaunchFiles(x), Fragment(x)) == Unit(x)
    ensures forall d :: d in x.tables.dropins ==> Get(LaunchFiles(x), DropInPath(x, d)) == DropInRecord(x, d)
  {
    hide Launch, Unit, AuditDoc, Fragment;
    var ds := x.tables.dropins;
    assert Loaded(x.tables, Fragment(x)) == ExpectedFiles(x);
    forall d | d in ds ensures Get(LaunchFiles(x), DropInPath(x, d)) == DropInRecord(x, d) {
      var i :| 0 <= i < |ds| && ds[i] == d;
      ReceiptOf(ds, x.sha, Fragment(x), i);
      assert |DropInPath(x, d)| > |Fragment(x)|;
      RecordIsAudit(x, d);
    }
  }

  lemma RecordIsAudit(x: Case, d: DropIn)
    ensures DropInRecord(x, d) == AuditDoc(File(|d.content|, x.sha(d.content)))
  {
  }

  lemma UnitHolds(x: Case, t: Target)
    requires Readable(Launch(x)) && Get(Launch(x), "service") == Str(x.tables.service)
    requires Get(Launch(x), "files") == Receipts(t, x.tables, x.sha, Fragment(x)) && Unit(x) == AuditDoc(t.unit)
    requires Get(Launch(x), "dropInPaths") == DropInDocs(x.tables, Fragment(x)) && Sha(t.unit.hash)
    requires forall j, k :: 0 <= j < k < |x.tables.dropins| ==> x.tables.dropins[j].name != x.tables.dropins[k].name
    ensures LaunchRead(x) && forall c :: !UnitCause(x, c)
  {
    assert DropInDocs(x.tables, Fragment(x)) == DropInList(x) by { hide Fragment, Get; }
    FileFields(t.unit);
    EqualRefl(Int(t.unit.size));
    hide Get, Launch, Unit, AuditDoc, Fragment, Receipts, DropInDocs, DropInList, DropInPath, DropInRecord, Readable,
      Equal, ValidSha256, ExpectedFiles;
    ReceiptsHold(x, t);
    forall d | d in x.tables.dropins ensures Equal(Get(LaunchFiles(x), DropInPath(x, d)), DropInRecord(x, d)) {
      EqualRefl(DropInRecord(x, d));
    }
  }

  // ---- the processes ----

  lemma ProcessFields(argv: seq<Json>, executable: string, hash: string)
    ensures var r := Process(argv, executable, hash);
            && r.Obj? && Get(r, "argv") == Arr(argv) && Get(r, "executable") == Str(executable)
            && Get(r, "executableSha256") == Str(hash) && (Sha(hash) ==> GoodProcess(r))
  {
  }

  lemma EndsDiffer(a: string, b: string)
    requires a != "" && b != "" && a[|a| - 1] != b[|b| - 1]
    ensures a != b
  {
  }

  /** The three executables are three. */
  lemma ThreePrograms(pointer: string)
    ensures var o, r := pointer + "/bin/OBC", pointer + "/bin/radio_mock_server";
            o != r && o != "/usr/bin/bash" && r != "/usr/bin/bash"
  {
    var o, r := pointer + "/bin/OBC", pointer + "/bin/radio_mock_server";
    assert o[|o| - 1] == 'C' && r[|r| - 1] == 'r';
    EndsDiffer(o, r);
    EndsDiffer(o, "/usr/bin/bash");
    EndsDiffer(r, "/usr/bin/bash");
  }

  lemma CountThree(a: Json, b: Json, c: Json, p: Json -> bool)
    ensures Count([a, b, c], p) == (if p(a) then 1 else 0) + (if p(b) then 1 else 0) + (if p(c) then 1 else 0)
  {
    assert [a, b, c][..2] == [a, b] && [a, b][..1] == [a] && [a][..0] == [];
    assert Count([a], p) == if p(a) then 1 else 0;
    assert Count([a, b], p) == Count([a], p) + if p(b) then 1 else 0;
  }

  lemma ProcessesHold(x: Case, t: Target)
    requires "bin/OBC" in t.files && "bin/radio_mock_server" in t.files && LaunchRead(x) && x.root == t.root
    requires Processes(x) == Arr(Tree(t)) && Pointer(x) == Release(t) && Files(x) == FilesDoc(t)
    requires Get(x.remote, "installedObcSha256") == Str(t.files["bin/OBC"].hash)
    requires Sha(t.shellHash) && Sha(t.files["bin/OBC"].hash) && Sha(t.files["bin/radio_mock_server"].hash)
    ensures forall c :: !ProcessCause(x, c)
  {
    var shell, obc, radio := Tree(t)[0], Tree(t)[1], Tree(t)[2];
    assert LaunchScript(x) == Script(t);
    ListedHash(t, "bin/radio_mock_server");
    ProcessFields([Str(Script(t))], "/usr/bin/bash", t.shellHash);
    ProcessFields([], Release(t) + "/bin/OBC", t.files["bin/OBC"].hash);
    ProcessFields([], Release(t) + "/bin/radio_mock_server", t.files["bin/radio_mock_server"].hash);
    ThreePrograms(Release(t));
    assert Tree(t) == [shell, obc, radio];
    hide *;
    ThreeProcesses(x, t, shell, obc, radio);
  }

  lemma ThreeProcesses(x: Case, t: Target, shell: Json, obc: Json, radio: Json)
    requires LaunchRead(x) && Processes(x) == Arr([shell, obc, radio]) && LaunchScript(x) == Script(t)
    requires GoodProcess(shell) && GoodProcess(obc) && GoodProcess(radio)
    requires Get(shell, "argv") == Arr([Str(Script(t))]) && Get(obc, "argv") == Arr([]) && Get(radio, "argv") == Arr([])
    requires Get(shell, "executable") == Str("/usr/bin/bash") && Get(obc, "executable") == Str(Obc(x))
             && Get(radio, "executable") == Str(Radio(x))
    requires Obc(x) != Radio(x) && Obc(x) != "/usr/bin/bash" && Radio(x) != "/usr/bin/bash"
    requires Get(obc, "executableSha256") == Get(x.remote, "installedObcSha256")
             && Get(radio, "executableSha256") == RadioHash(x)
    ensures forall c :: !ProcessCause(x, c)
  {
    hide Get, LaunchRead, Processes, LaunchScript, Script, Obc, Radio, RadioHash, GoodProcess;
    CountThree(shell, obc, radio, r => Launches(r, LaunchScript(x)));
    CountThree(shell, obc, radio, r => Runs(r, Obc(x)));
    CountThree(shell, obc, radio, r => Runs(r, Radio(x)));
    forall r, c | r in [shell, obc, radio] ensures !ProcessFault(x, r, c) {
    }
    assert forall c :: !ProcessFaulty(x, [shell, obc, radio], c);
  }

  // ---- all together ----

  /** Acceptance is not empty: every sound target whose documents have this shape is accepted, whatever its
    * revision, release, files and hashes. */
  lemma SoundTargetAccepted(t: Target, tables: Deployment, sha: string -> string, repr: Json -> string,
                            order: seq<string>)
    requires Sound(t, tables) && FileOrder(CaseOf(t, tables, sha, repr), order)
    ensures Accepted(CaseOf(t, tables, sha, repr), order)
  {
    var x := CaseOf(t, tables, sha, repr);
    CaseParts(t, tables, sha, repr);
    LocalFields(t);
    WorkspaceFields(t, tables, sha);
    InstalledFields(t, tables, sha);
    SoundParts(t, tables);
    hide *;
    RevisionAccepted(x, t);
    InstallAccepted(x, t, order);
    ServiceAccepted(x, t);
    NothingHolds(x, order);
  }

  lemma CaseParts(t: Target, tables: Deployment, sha: string -> string, repr: Json -> string)
    requires Sound(t, tables)
    ensures var x := CaseOf(t, tables, sha, repr);
            && x.local == LocalDoc(t) && x.remote == RemoteDoc(t, tables, sha) && x.workspace == t.workspace
            && x.root == t.root
            && x.tables == tables && x.sha == sha
  {
  }

  lemma SoundParts(t: Target, tables: Deployment)
    requires Sound(t, tables)
    ensures forall p :: p in tables.inputs ==> p in t.files
    ensures "bin/OBC" in t.files && "bin/radio_mock_server" in t.files
  {
    hide Sha, SortedSafe, Hex, EndsWith, PosixPath.Safe;
  }

  lemma RevisionAccepted(x: Case, t: Target)
    requires Sound(t, x.tables) && x.local == LocalDoc(t)
    requires Get(LocalDoc(t), "unexpectedUntrackedPaths") == Arr([]) && Get(LocalDoc(t), "trackedContent") == Summary(t)
    requires Get(x.remote, "workspaceMarker") == MarkerDoc(t, x.tables)
             && Get(x.remote, "workspaceTrackedContent") == Summary(t)
    requires Get(x.remote, "captureError") == Null && Get(x.remote, "workspaceGitError") == Null
             && Get(x.remote, "workspaceGitHead") == Null
    requires Get(x.remote, "remoteBuildMetadata") == VersionDoc(t)
             && Get(x.remote, "installedBuildMetadata") == VersionDoc(t)
    ensures RevisionFound(x, t) && Captured(x)
    ensures forall c :: !LocalCause(x, c) && !MarkerCause(x, c) && !ContentCause(x, c) && !BuildCause(x, c)
  {
    hide Get, LocalDoc, MarkerDoc, MarkerSummary, BuiltDoc, Summary, VersionDoc, SortedSafe, Sha, Hex, EndsWith,
      Readable, LocalCause, MarkerCause, ContentCause, BuildCause;
    FindRevision(x, t);
    LocalHolds(x, t);
    MarkerFields(t, x.tables);
    MarkerHolds(x, t);
    ContentHolds(x, t);
    BuildHolds(x, t);
  }

  lemma InstallAccepted(x: Case, t: Target, order: seq<string>)
    requires Sound(t, x.tables) && FileOrder(x, order) && x.local == LocalDoc(t) && RevisionFound(x, t)
    requires x.workspace == t.workspace && x.root == t.root
    requires Get(LocalDoc(t), "trustedInstalledManifest") == TrustedDoc(t)
    requires Get(x.remote, "workspaceMarker") == MarkerDoc(t, x.tables)
             && Get(x.remote, "remoteBuildInputs") == InputDocs(t, x.tables)
    requires Get(x.remote, "installedManifest") == ManifestDoc(t)
             && Get(x.remote, "installedManifestSha256") == Str(t.manifestHash)
    requires Get(x.remote, "installedManifestFileAudit") == FileAudit(t)
    requires Get(x.remote, "installedReleasePointer") == Str(Release(t))
    requires Get(x.remote, "installedObcPath") == Str(Release(t) + "/bin/OBC")
    requires Get(x.remote, "installedObcSha256") == Str(t.files["bin/OBC"].hash)
    ensures Pointer(x) == Release(t) && Files(x) == FilesDoc(t)
    ensures forall c :: !ManifestCause(x, c) && !FileCause(x, order, c) && !ReleaseCause(x, c) && !InputCause(x, c)
  {
    hide Get, LocalDoc, MarkerDoc, MarkerSummary, BuiltDoc, InputDocs, TrustedDoc, ManifestDoc, FilesDoc, FileAudit,
      Release, SortedSafe, Sha, Hex, EndsWith, Readable, FileOrder, ManifestCause, FileCause, ReleaseCause,
      InputCause, PosixPath.Safe;
    ManifestFields(t);
    ManifestHolds(x, t);
    FilesHold(x, order, t);
    ReleaseFound(x, t);
    ReleaseHolds(x, t);
    MarkerFields(t, x.tables);
    InputsHold(x, t);
  }

  lemma ServiceAccepted(x: Case, t: Target)
    requires Sound(t, x.tables) && x.local == LocalDoc(t) && x.root == t.root
    requires Get(LocalDoc(t), "trustedServiceUnit") == AuditDoc(t.unit)
    requires Get(x.remote, "serviceLaunchAudit") == LaunchDoc(t, x.tables, x.sha)
    requires Get(x.remote, "installedObcSha256") == Str(t.files["bin/OBC"].hash)
    requires Pointer(x) == Release(t) && Files(x) == FilesDoc(t)
    ensures forall c :: !ServiceCause(x, c)
  {
    hide Get, LocalDoc, LaunchDoc, AuditDoc, Receipts, DropInDocs, ShowDoc, Tree, FilesDoc, Release, SortedSafe, Sha,
      Hex, EndsWith, Readable, UnitCause, ShowCause, ProcessCause, PosixPath.Safe, LaunchRead, Pointer, Files;
    LaunchFields(t, x.tables, x.sha);
    UnitHolds(x, t);
    ShowHolds(x, t);
    ProcessesHold(x, t);
  }

  lemma NothingHolds(x: Case, order: seq<string>)
    requires forall c :: !LocalCause(x, c) && !MarkerCause(x, c) && !ContentCause(x, c) && !BuildCause(x, c)
    requires forall c :: !ManifestCause(x, c) && !FileCause(x, order, c) && !ReleaseCause(x, c) && !InputCause(x, c)
    requires forall c :: !ServiceCause(x, c)
    ensures Accepted(x, order)
  {
    hide LocalCause, MarkerCause, ContentCause, BuildCause, ManifestCause, FileCause, ReleaseCause, InputCause,
      ServiceCause, Captured;
  }
}
