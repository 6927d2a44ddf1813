/** What the target revision provenance check demands, failure by failure, and what its acceptance binds
  * together. The checker itself is in ProvenanceChecker. */
module Provenance {
  import opened Json
  import PosixPath

  datatype DropIn = DropIn(name: string, content: string)

  /** The fixed tables: the service, its drop-ins in name order, and the packaged build inputs with the
    * workspace path each is built at. */
  datatype Deployment = Deployment(service: string, dropins: seq<DropIn>, inputs: map<string, string>)

  /** One check: the two documents, the two command-line paths, the tables, sha256 of a text in
    * hexadecimal, and str() of values that are not strings. */
  datatype Case = Case(local: Json, remote: Json, workspace: string, root: string, tables: Deployment,
                       sha: string -> string, repr: Json -> string)

  datatype Code =
    | LocalBranchMissing | LocalHeadInvalid | LocalProjectVersionMissing | LocalTrackedWorktreeDirty
    | LocalUntrackedAuditMissing | LocalUntrackedInputsPresent | RemoteCaptureFailed
    | RemoteWorkspaceMarkerMissing | RemoteWorkspaceMarkerSchemaMismatch | RemoteWorkspaceBranchMismatch
    | RemoteWorkspaceHeadMismatch | RemoteWorkspaceVersionMismatch
    | LocalTrackedContentAuditMissing | RemoteWorkspaceContentManifestInvalid
    | RemoteWorkspaceContentMarkerMismatch | RemoteWorkspaceContentUnreadable | RemoteWorkspaceContentMismatch
    | RemoteWorkspaceGitUnreadable | RemoteWorkspaceGitHeadMismatch | RemoteBuildVersionMismatch
    | InstalledManifestMissing | InstalledManifestVersionMismatch | InstalledManifestWorkspaceMismatch
    | TrustedInstalledManifestMissing | InstalledManifestTrustedHashMismatch
    | InstalledManifestTrustedContentMismatch
    | InstalledManifestHashMissing | InstalledManifestFilesInvalid | InstalledManifestFileAuditUnreadable
    | InstalledManifestFileSetMismatch | InstalledManifestFileSizeMismatch | InstalledManifestFileHashMismatch
    | InstalledBuildVersionMismatch | InstalledReleasePointerMismatch | InstalledObcPathMismatch
    | InstalledObcHashMismatch
    | RemoteWorkspaceMarkerBuildInputsInvalid | RemoteBuildInputAuditInvalid
    | RemoteBuildInputMarkerHashMismatch | PackagedBuildInputHashMismatch
    | TrustedServiceUnitMissing | ServiceLaunchAuditUnreadable | ServiceLaunchNameMismatch
    | ServiceLaunchFilesUnreadable | ServiceUnitReceiptMismatch | ServiceDropinSetMismatch
    | ServiceDropinContentMismatch | ServiceLaunchFileSetMismatch | ServiceEffectivePropertiesUnreadable
    | ServiceFragmentPathMismatch | ServiceWorkingDirectoryMismatch | ServiceExecStartMismatch
    | ServiceProcessTreeMissing | ServiceProcessTreeUnreadable | ServiceProcessExecutableUnexpected
    | ServiceProcessObcHashMismatch | ServiceProcessRadioHashMismatch | ServiceLauncherProcessMismatch
    | ServiceObcProcessMismatch | ServiceRadioProcessMismatch

  // ---- the local revision ----

  function Branch(x: Case): string { Text(Get(x.local, "branch"), x.repr) }
  function Head(x: Case): string { Text(Get(x.local, "head"), x.repr) }
  function Version(x: Case): string { Text(Get(x.local, "projectVersion"), x.repr) }

  predicate EndsWith(s: string, suffix: string) {
    |suffix| <= |s| && s[|s| - |suffix|..] == suffix
  }

  predicate Captured(x: Case) {
    !Truthy(Get(x.remote, "captureError"))
  }

  predicate LocalCause(x: Case, c: Code) {
    var untracked := Get(x.local, "unexpectedUntrackedPaths");
    match c
    case LocalBranchMissing => Branch(x) == ""
    case LocalHeadInvalid => |Head(x)| != 40 || !Hex(Head(x))
    case LocalProjectVersionMissing => Version(x) == ""
    case LocalTrackedWorktreeDirty => EndsWith(Version(x), "-dirty")
    case LocalUntrackedAuditMissing => !untracked.Arr?
    case LocalUntrackedInputsPresent => untracked.Arr? && untracked.items != []
    case RemoteCaptureFailed => !Captured(x)
    case _ => false
  }

  // ---- the workspace marker and the tracked content ----

  function Marker(x: Case): Json { Get(x.remote, "workspaceMarker") }

  predicate MarkerCause(x: Case, c: Code) {
    var m := Marker(x);
    match c
    case RemoteWorkspaceMarkerMissing => !Readable(m)
    case RemoteWorkspaceMarkerSchemaMismatch => Readable(m) && !Equal(Get(m, "schemaVersion"), Int(3))
    case RemoteWorkspaceBranchMismatch => Readable(m) && Get(m, "branch") != Str(Branch(x))
    case RemoteWorkspaceHeadMismatch => Readable(m) && Get(m, "head") != Str(Head(x))
    case RemoteWorkspaceVersionMismatch => Readable(m) && Get(m, "projectVersion") != Str(Version(x))
    case _ => false
  }

  const TRACKED_CONTENT_FORMAT := "route1-git-indexed-workspace-v1"

  predicate ValidSummary(j: Json) {
    && Get(j, "format") == Str(TRACKED_CONTENT_FORMAT) && Get(j, "algorithm") == Str("sha256")
    && PlainInt(Get(j, "fileCount")) && Get(j, "fileCount").n >= 0 && ValidSha256(Get(j, "digest"))
  }

  /** Safe strings in strictly increasing order, as many as fileCount says. */
  predicate ValidTrackedPaths(j: Json) {
    var p := Get(j, "paths");
    && p.Arr? && Equal(Get(j, "fileCount"), Int(|p.items|))
    && (forall i :: 0 <= i < |p.items| ==> p.items[i].Str? && PosixPath.Safe(p.items[i].s))
    && (forall i, k :: 0 <= i < k < |p.items| ==> PosixPath.Less(p.items[i].s, p.items[k].s))
  }

  function WithoutPaths(j: Json): Json {
    Obj(map["format" := Get(j, "format"), "algorithm" := Get(j, "algorithm"),
            "fileCount" := Get(j, "fileCount"), "digest" := Get(j, "digest")])
  }

  function LocalContent(x: Case): Json { Get(x.local, "trackedContent") }
  function MarkerContent(x: Case): Json { Get(Marker(x), "trackedContent") }
  function RemoteContent(x: Case): Json { Get(x.remote, "workspaceTrackedContent") }

  predicate MarkerContentValid(x: Case) {
    ValidSummary(MarkerContent(x)) && ValidTrackedPaths(MarkerContent(x))
  }

  predicate ContentCause(x: Case, c: Code) {
    var here := LocalContent(x);
    var there := RemoteContent(x);
    match c
    case LocalTrackedContentAuditMissing => !ValidSummary(here)
    case RemoteWorkspaceContentManifestInvalid => !MarkerContentValid(x)
    case RemoteWorkspaceContentMarkerMismatch =>
      MarkerContentValid(x) && ValidSummary(here) && !Equal(WithoutPaths(MarkerContent(x)), here)
    case RemoteWorkspaceContentUnreadable => !ValidSummary(there)
    case RemoteWorkspaceContentMismatch => ValidSummary(there) && ValidSummary(here) && !Equal(there, here)
    case _ => false
  }

  predicate OfVersion(x: Case, j: Json) {
    Readable(j) && Get(j, "project_version") == Str(Version(x))
  }

  predicate BuildCause(x: Case, c: Code) {
    var gitHead := Get(x.remote, "workspaceGitHead");
    match c
    case RemoteWorkspaceGitUnreadable => Truthy(Get(x.remote, "workspaceGitError"))
    case RemoteWorkspaceGitHeadMismatch => gitHead != Null && gitHead != Str(Head(x))
    case RemoteBuildVersionMismatch => !OfVersion(x, Get(x.remote, "remoteBuildMetadata"))
    case InstalledBuildVersionMismatch => !OfVersion(x, Get(x.remote, "installedBuildMetadata"))
    case _ => false
  }

  // ---- the installed manifest and its files ----

  function Installed(x: Case): Json { Get(x.remote, "installedManifest") }
  function Trusted(x: Case): Json { Get(x.local, "trustedInstalledManifest") }

  predicate TrustedUsable(x: Case) {
    var t := Trusted(x);
    Readable(t) && ValidSha256(Get(t, "sha256")) && Get(t, "manifest").Obj?
  }

  predicate ManifestCause(x: Case, c: Code) {
    var m := Installed(x);
    var t := Trusted(x);
    match c
    case InstalledManifestMissing => !Readable(m)
    case InstalledManifestVersionMismatch => Readable(m) && Get(m, "project_version") != Str(Version(x))
    case InstalledManifestWorkspaceMismatch => Readable(m) && Get(m, "source_remote_dir") != Str(x.workspace)
    case TrustedInstalledManifestMissing => Readable(m) && !TrustedUsable(x)
    case InstalledManifestTrustedHashMismatch =>
      Readable(m) && TrustedUsable(x) && Get(x.remote, "installedManifestSha256") != Get(t, "sha256")
    case InstalledManifestTrustedContentMismatch =>
      Readable(m) && TrustedUsable(x) && !Equal(m, Get(t, "manifest"))
    case _ => false
  }

  function Files(x: Case): Json { Get(Installed(x), "files") }
  function Audit(x: Case): Json { Get(x.remote, "installedManifestFileAudit") }

  predicate GoodRecord(path: string, r: Json) {
    && PosixPath.Safe(path) && r.Obj? && PlainInt(Get(r, "size_bytes")) && Get(r, "size_bytes").n >= 0
    && ValidSha256(Get(r, "sha256"))
  }

  predicate FilesPresent(x: Case) {
    Files(x).Obj? && Files(x).fields != map[]
  }

  predicate AuditReadable(x: Case) {
    && Readable(Audit(x)) && Get(Audit(x), "format") == Str("route1-installed-manifest-files-v1")
    && Get(Audit(x), "files").Obj?
  }

  function Audited(x: Case, path: string): Json { Get(Get(Audit(x), "files"), path) }
  function Listed(x: Case, path: string): Json { Get(Files(x), path) }

  predicate SameFileSet(x: Case) {
    Files(x).Obj? && Get(Audit(x), "files").Obj? && Get(Audit(x), "files").fields.Keys == Files(x).fields.Keys
  }

  predicate GoodAudit(a: Json) {
    Readable(a) && PlainInt(Get(a, "sizeBytes")) && ValidSha256(Get(a, "sha256"))
  }

  /** `order` is the order of the manifest's file records; reading them stops at the first bad one. */
  ghost predicate FileOrder(x: Case, order: seq<string>) {
    && (forall i, k :: 0 <= i < k < |order| ==> order[i] != order[k])
    && (Files(x).Obj? ==> forall p :: p in order <==> p in Files(x).fields)
  }

  /** The first n records read are good. */
  predicate GoodPrefix(x: Case, order: seq<string>, n: nat)
    requires n <= |order|
  {
    forall k :: 0 <= k < n ==> GoodRecord(order[k], Listed(x, order[k]))
  }

  /** What is wrong with the audit of one file. */
  predicate FileFault(x: Case, p: string, c: Code) {
    var a := Audited(x, p);
    match c
    case InstalledManifestFileAuditUnreadable => !GoodAudit(a)
    case InstalledManifestFileSizeMismatch => GoodAudit(a) && Get(a, "sizeBytes") != Get(Listed(x, p), "size_bytes")
    case InstalledManifestFileHashMismatch => GoodAudit(a) && Get(a, "sha256") != Get(Listed(x, p), "sha256")
    case _ => false
  }

  /** A fault among the files read before the first bad record. */
  predicate Faulty(x: Case, order: seq<string>, c: Code) {
    exists i :: 0 <= i < |order| && GoodPrefix(x, order, i + 1) && FileFault(x, order[i], c)
  }

  predicate Compared(x: Case) {
    Readable(Installed(x)) && FilesPresent(x) && AuditReadable(x) && SameFileSet(x)
  }

  predicate FileCause(x: Case, order: seq<string>, c: Code) {
    match c
    case InstalledManifestHashMissing => Readable(Installed(x))
      && !ValidSha256(Get(x.remote, "installedManifestSha256"))
    case InstalledManifestFilesInvalid =>
      Readable(Installed(x)) && (!FilesPresent(x) || !GoodPrefix(x, order, |order|))
    case InstalledManifestFileAuditUnreadable =>
      (Readable(Installed(x)) && FilesPresent(x) && !AuditReadable(x)) || (Compared(x) && Faulty(x, order, c))
    case InstalledManifestFileSetMismatch =>
      Readable(Installed(x)) && FilesPresent(x) && AuditReadable(x) && !SameFileSet(x)
    case InstalledManifestFileSizeMismatch => Compared(x) && Faulty(x, order, c)
    case InstalledManifestFileHashMismatch => Compared(x) && Faulty(x, order, c)
    case _ => false
  }

  // ---- the release and its build inputs ----

  /** The manifest from here on: an unreadable one counts as empty. */
  function Manifest(x: Case): Json { if Readable(Installed(x)) then Installed(x) else Obj(map[]) }

  function ReleaseId(x: Case): string { Text(Get(Manifest(x), "release_id"), x.repr) }

  function ReleasePath(x: Case): string {
    PosixPath.Under(x.root, ["releases", ReleaseId(x)])
  }

  function ObcHash(x: Case): string { Text(Get(x.remote, "installedObcSha256"), x.repr) }

  predicate ReleaseCause(x: Case, c: Code) {
    match c
    case InstalledReleasePointerMismatch =>
      ReleaseId(x) == "" || Get(x.remote, "installedReleasePointer") != Str(ReleasePath(x))
    case InstalledObcPathMismatch =>
      !(ReleasePath(x) + "/" <= Text(Get(x.remote, "installedObcPath"), x.repr))
    case InstalledObcHashMismatch =>
      |ObcHash(x)| != 64 || Get(Get(Get(Manifest(x), "files"), "bin/OBC"), "sha256") != Str(ObcHash(x))
    case _ => false
  }

  function MarkerInputs(x: Case): Json { Get(Marker(x), "builtInputSha256") }
  function LiveInputs(x: Case): Json { Get(x.remote, "remoteBuildInputs") }

  predicate Keyed(j: Json, x: Case) {
    j.Obj? && j.fields.Keys == x.tables.inputs.Keys
  }

  predicate GoodInput(x: Case, p: string)
    requires p in x.tables.inputs
  {
    var r := Get(LiveInputs(x), p);
    && r.Obj? && Get(r, "path") == Str(PosixPath.Under(x.workspace, [x.tables.inputs[p]]))
    && ValidSha256(Get(r, "sha256"))
  }

  predicate InputsCompared(x: Case) {
    Keyed(LiveInputs(x), x) && MarkerInputs(x).Obj?
  }

  predicate Packaged(x: Case, p: string) {
    var r := Get(Get(Manifest(x), "files"), p);
    r.Obj? && Equal(Get(r, "sha256"), Get(MarkerInputs(x), p))
  }

  /** What is wrong with one build input. */
  predicate InputFault(x: Case, p: string, c: Code)
    requires p in x.tables.inputs
  {
    match c
    case RemoteBuildInputAuditInvalid => !GoodInput(x, p)
    case RemoteBuildInputMarkerHashMismatch =>
      GoodInput(x, p) && !Equal(Get(Get(LiveInputs(x), p), "sha256"), Get(MarkerInputs(x), p))
    case PackagedBuildInputHashMismatch => GoodInput(x, p) && !Packaged(x, p)
    case _ => false
  }

  predicate InputFaulty(x: Case, c: Code) {
    exists p :: p in x.tables.inputs && InputFault(x, p, c)
  }

  predicate MarkerInputsValid(x: Case) {
    Keyed(MarkerInputs(x), x) && forall p :: p in MarkerInputs(x).fields ==> ValidSha256(MarkerInputs(x).fields[p])
  }

  predicate InputCause(x: Case, c: Code) {
    match c
    case RemoteWorkspaceMarkerBuildInputsInvalid => !MarkerInputsValid(x)
    case RemoteBuildInputAuditInvalid => !Keyed(LiveInputs(x), x) || (InputsCompared(x) && InputFaulty(x, c))
    case RemoteBuildInputMarkerHashMismatch => InputsCompared(x) && InputFaulty(x, c)
    case PackagedBuildInputHashMismatch => InputsCompared(x) && InputFaulty(x, c)
    case _ => false
  }

  // ---- the service as launched ----

  function Unit(x: Case): Json { Get(x.local, "trustedServiceUnit") }
  function Launch(x: Case): Json { Get(x.remote, "serviceLaunchAudit") }
  function LaunchFiles(x: Case): Json { Get(Launch(x), "files") }
  function Fragment(x: Case): string { "/etc/systemd/system/" + x.tables.service }
  function DropInPath(x: Case, d: DropIn): string { Fragment(x) + ".d/" + d.name }

  function DropInRecord(x: Case, d: DropIn): Json {
    Obj(map["sizeBytes" := Int(|d.content|), "sha256" := Str(x.sha(d.content))])
  }

  function DropInList(x: Case): Json {
    Arr(seq(|x.tables.dropins|, i requires 0 <= i < |x.tables.dropins| => Str(DropInPath(x, x.tables.dropins[i]))))
  }

  predicate UnitUsable(x: Case) {
    Readable(Unit(x)) && AnyInt(Get(Unit(x), "sizeBytes")) && ValidSha256(Get(Unit(x), "sha256"))
  }

  predicate LaunchRead(x: Case) {
    UnitUsable(x) && Readable(Launch(x)) && LaunchFiles(x).Obj?
  }

  function LaunchScript(x: Case): string { x.root + "/current/launch/run_obc_comm_csp_stack.sh" }
  function Pointer(x: Case): string { Text(Get(x.remote, "installedReleasePointer"), x.repr) }

  predicate Contains(s: string, part: string) {
    exists i :: 0 <= i <= |s| && part <= s[i..]
  }

  function ExpectedFiles(x: Case): set<string> {
    {Fragment(x)} + set d | d in x.tables.dropins :: DropInPath(x, d)
  }

  predicate UnitCause(x: Case, c: Code) {
    var f := Get(LaunchFiles(x), Fragment(x));
    match c
    case TrustedServiceUnitMissing => !UnitUsable(x)
    case ServiceLaunchAuditUnreadable => UnitUsable(x) && !Readable(Launch(x))
    case ServiceLaunchNameMismatch =>
      UnitUsable(x) && Readable(Launch(x)) && Get(Launch(x), "service") != Str(x.tables.service)
    case ServiceLaunchFilesUnreadable => UnitUsable(x) && Readable(Launch(x)) && !LaunchFiles(x).Obj?
    case ServiceUnitReceiptMismatch =>
      LaunchRead(x) && !(f.Obj? && Equal(Get(f, "sizeBytes"), Get(Unit(x), "sizeBytes"))
                         && Get(f, "sha256") == Get(Unit(x), "sha256"))
    case ServiceDropinSetMismatch => LaunchRead(x) && Get(Launch(x), "dropInPaths") != DropInList(x)
    case ServiceDropinContentMismatch =>
      LaunchRead(x) && exists d :: d in x.tables.dropins
                                   && !Equal(Get(LaunchFiles(x), DropInPath(x, d)), DropInRecord(x, d))
    case ServiceLaunchFileSetMismatch => LaunchRead(x) && LaunchFiles(x).fields.Keys != ExpectedFiles(x)
    case _ => false
  }

  predicate ShowCause(x: Case, c: Code) {
    var show := Get(Launch(x), "show");
    var start := Get(show, "ExecStart");
    match c
    case ServiceEffectivePropertiesUnreadable => LaunchRead(x) && !show.Obj?
    case ServiceFragmentPathMismatch => LaunchRead(x) && show.Obj? && Get(show, "FragmentPath") != Str(Fragment(x))
    case ServiceWorkingDirectoryMismatch =>
      LaunchRead(x) && show.Obj? && Get(show, "WorkingDirectory") != Str(x.root + "/current")
    case ServiceExecStartMismatch =>
      LaunchRead(x) && show.Obj? && !(start.Str? && Contains(start.s, LaunchScript(x)))
    case _ => false
  }

  function Processes(x: Case): Json { Get(Launch(x), "processTree") }

  predicate TreeRead(x: Case) {
    LaunchRead(x) && Processes(x).Arr? && Processes(x).items != []
  }

  predicate GoodProcess(r: Json) {
    r.Obj? && Get(r, "argv").Arr? && Get(r, "executable").Str? && ValidSha256(Get(r, "executableSha256"))
  }

  predicate Runs(r: Json, executable: string) {
    GoodProcess(r) && Get(r, "executable") == Str(executable)
  }

  predicate Launches(r: Json, script: string) {
    GoodProcess(r) && Str(script) in Get(r, "argv").items
  }

  function Obc(x: Case): string { Pointer(x) + "/bin/OBC" }
  function Radio(x: Case): string { Pointer(x) + "/bin/radio_mock_server" }

  predicate ExpectedProcess(x: Case, r: Json) {
    var e := Get(r, "executable");
    e == Str(Obc(x)) || e == Str(Radio(x)) || e == Str("/usr/bin/bash") || e == Str("/bin/bash")
  }

  function RadioHash(x: Case): Json { Get(Get(Files(x), "bin/radio_mock_server"), "sha256") }

  function Count(rs: seq<Json>, p: Json -> bool): nat {
    if rs == [] then 0 else Count(rs[..|rs| - 1], p) + if p(rs[|rs| - 1]) then 1 else 0
  }

  /** What is wrong with one process record. */
  predicate ProcessFault(x: Case, r: Json, c: Code) {
    match c
    case ServiceProcessTreeUnreadable => !GoodProcess(r)
    case ServiceProcessExecutableUnexpected => GoodProcess(r) && !ExpectedProcess(x, r)
    case ServiceProcessObcHashMismatch =>
      Runs(r, Obc(x)) && Get(r, "executableSha256") != Get(x.remote, "installedObcSha256")
    case ServiceProcessRadioHashMismatch => Runs(r, Radio(x)) && Get(r, "executableSha256") != RadioHash(x)
    case _ => false
  }

  predicate ProcessFaulty(x: Case, tree: seq<Json>, c: Code) {
    exists r :: r in tree && ProcessFault(x, r, c)
  }

  predicate ProcessCause(x: Case, c: Code) {
    match c
    case ServiceProcessTreeMissing => LaunchRead(x) && !TreeRead(x)
    case ServiceLauncherProcessMismatch =>
      TreeRead(x) && Count(Processes(x).items, r => Launches(r, LaunchScript(x))) != 1
    case ServiceObcProcessMismatch => TreeRead(x) && Count(Processes(x).items, r => Runs(r, Obc(x))) != 1
    case ServiceRadioProcessMismatch => TreeRead(x) && Count(Processes(x).items, r => Runs(r, Radio(x))) != 1
    case _ => TreeRead(x) && ProcessFaulty(x, Processes(x).items, c)
  }

  predicate ServiceCause(x: Case, c: Code) {
    UnitCause(x, c) || ShowCause(x, c) || ProcessCause(x, c)
  }

  // ---- all of it ----

  /** Exactly the failures the check reports. */
  predicate Cause(x: Case, order: seq<string>, c: Code) {
    || LocalCause(x, c)
    || (Captured(x)
        && (MarkerCause(x, c) || ContentCause(x, c) || BuildCause(x, c) || ManifestCause(x, c)
            || FileCause(x, order, c) || ReleaseCause(x, c) || InputCause(x, c) || ServiceCause(x, c)))
  }

  ghost predicate Accepted(x: Case, order: seq<string>) {
    forall c: Code {:trigger Cause(x, order, c)} :: !Cause(x, order, c)
  }
}
