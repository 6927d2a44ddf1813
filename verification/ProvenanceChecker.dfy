/** The provenance check as it runs: failures appended link by link. Each part reports exactly the failures
  * whose cause holds. */
module ProvenanceChecker {
  import opened Json
  import opened Provenance
  import ProvenanceFacts

  method CheckLocal(x: Case) returns (failures: seq<Code>)
    ensures forall c :: c in failures <==> LocalCause(x, c)
  {
    hide Branch, Head, Version, Hex, EndsWith, Get, Captured;
    failures := [];
    if Branch(x) == "" { failures := failures + [LocalBranchMissing]; }
    if |Head(x)| != 40 || !Hex(Head(x)) { failures := failures + [LocalHeadInvalid]; }
    if Version(x) == "" {
      VersionNotDirty(x);
      failures := failures + [LocalProjectVersionMissing];
    } else if EndsWith(Version(x), "-dirty") {
      failures := failures + [LocalTrackedWorktreeDirty];
    }
    var untracked := Get(x.local, "unexpectedUntrackedPaths");
    if !untracked.Arr? {
      failures := failures + [LocalUntrackedAuditMissing];
    } else if untracked.items != [] {
      failures := failures + [LocalUntrackedInputsPresent];
    }
    if !Captured(x) { failures := failures + [RemoteCaptureFailed]; }
  }

  lemma VersionNotDirty(x: Case)
    requires Version(x) == ""
    ensures !EndsWith(Version(x), "-dirty")
  {
  }

  method CheckMarker(x: Case) returns (failures: seq<Code>)
    ensures forall c :: c in failures <==> MarkerCause(x, c)
  {
    hide Branch, Head, Version, Get, Equal, Readable, Marker;
    failures := [];
    var m := Marker(x);
    if !Readable(m) {
      failures := failures + [RemoteWorkspaceMarkerMissing];
    } else {
      if !Equal(Get(m, "schemaVersion"), Int(3)) { failures := failures + [RemoteWorkspaceMarkerSchemaMismatch]; }
      if Get(m, "branch") != Str(Branch(x)) { failures := failures + [RemoteWorkspaceBranchMismatch]; }
      if Get(m, "head") != Str(Head(x)) { failures := failures + [RemoteWorkspaceHeadMismatch]; }
      if Get(m, "projectVersion") != Str(Version(x)) { failures := failures + [RemoteWorkspaceVersionMismatch]; }
    }
  }

  method CheckContent(x: Case) returns (failures: seq<Code>)
    ensures forall c :: c in failures <==> ContentCause(x, c)
  {
    hide LocalContent, RemoteContent, MarkerContent, MarkerContentValid, ValidSummary, Equal, WithoutPaths;
    failures := [];
    var here := LocalContent(x);
    if !ValidSummary(here) { failures := failures + [LocalTrackedContentAuditMissing]; }
    if !MarkerContentValid(x) {
      failures := failures + [RemoteWorkspaceContentManifestInvalid];
    } else if ValidSummary(here) && !Equal(WithoutPaths(MarkerContent(x)), here) {
      failures := failures + [RemoteWorkspaceContentMarkerMismatch];
    }
    var there := RemoteContent(x);
    if !ValidSummary(there) {
      failures := failures + [RemoteWorkspaceContentUnreadable];
    } else if ValidSummary(here) && !Equal(there, here) {
      failures := failures + [RemoteWorkspaceContentMismatch];
    }
  }

  method CheckBuild(x: Case) returns (failures: seq<Code>)
    ensures forall c :: c in failures <==> BuildCause(x, c)
  {
    hide Head, Get, Truthy, OfVersion;
    failures := [];
    if Truthy(Get(x.remote, "workspaceGitError")) { failures := failures + [RemoteWorkspaceGitUnreadable]; }
    var gitHead := Get(x.remote, "workspaceGitHead");
    if gitHead != Null && gitHead != Str(Head(x)) { failures := failures + [RemoteWorkspaceGitHeadMismatch]; }
    if !OfVersion(x, Get(x.remote, "remoteBuildMetadata")) { failures := failures + [RemoteBuildVersionMismatch]; }
    if !OfVersion(x, Get(x.remote, "installedBuildMetadata")) {
      failures := failures + [InstalledBuildVersionMismatch];
    }
  }

  method CheckManifest(x: Case) returns (failures: seq<Code>)
    ensures forall c :: c in failures <==> ManifestCause(x, c)
  {
    hide Version, Get, Equal, Readable, Installed, Trusted, TrustedUsable;
    failures := [];
    var m := Installed(x);
    if !Readable(m) {
      failures := failures + [InstalledManifestMissing];
      return;
    }
    if Get(m, "project_version") != Str(Version(x)) { failures := failures + [InstalledManifestVersionMismatch]; }
    if Get(m, "source_remote_dir") != Str(x.workspace) { failures := failures + [InstalledManifestWorkspaceMismatch]; }
    var t := Trusted(x);
    if !TrustedUsable(x) {
      failures := failures + [TrustedInstalledManifestMissing];
    } else {
      if Get(x.remote, "installedManifestSha256") != Get(t, "sha256") {
        failures := failures + [InstalledManifestTrustedHashMismatch];
      }
      if !Equal(m, Get(t, "manifest")) { failures := failures + [InstalledManifestTrustedContentMismatch]; }
    }
  }

  method CheckRelease(x: Case) returns (failures: seq<Code>)
    ensures forall c :: c in failures <==> ReleaseCause(x, c)
  {
    hide ReleaseId, ReleasePath, Get, Text, ObcHash, Manifest;
    failures := [];
    if ReleaseId(x) == "" || Get(x.remote, "installedReleasePointer") != Str(ReleasePath(x)) {
      failures := failures + [InstalledReleasePointerMismatch];
    }
    if !(ReleasePath(x) + "/" <= Text(Get(x.remote, "installedObcPath"), x.repr)) {
      failures := failures + [InstalledObcPathMismatch];
    }
    var listed := Get(Get(Get(Manifest(x), "files"), "bin/OBC"), "sha256");
    if |ObcHash(x)| != 64 || listed != Str(ObcHash(x)) { failures := failures + [InstalledObcHashMismatch]; }
  }

  // ---- the installed files ----

  /** The records up to the first bad one. */
  method ReadRecords(x: Case, order: seq<string>) returns (n: nat)
    ensures n <= |order| && GoodPrefix(x, order, n)
    ensures n < |order| ==> !GoodRecord(order[n], Listed(x, order[n]))
  {
    hide GoodRecord, Listed;
    n := 0;
    while n < |order| && GoodRecord(order[n], Listed(x, order[n]))
      invariant n <= |order| && GoodPrefix(x, order, n)
    {
      n := n + 1;
    }
  }

  method CompareFile(x: Case, p: string) returns (failures: seq<Code>)
    ensures forall c :: c in failures <==> FileFault(x, p, c)
  {
    hide GoodAudit, Audited, Listed, Get;
    failures := [];
    var a := Audited(x, p);
    if !GoodAudit(a) { return [InstalledManifestFileAuditUnreadable]; }
    if Get(a, "sizeBytes") != Get(Listed(x, p), "size_bytes") {
      failures := failures + [InstalledManifestFileSizeMismatch];
    }
    if Get(a, "sha256") != Get(Listed(x, p), "sha256") {
      failures := failures + [InstalledManifestFileHashMismatch];
    }
  }

  /** The comparison of every record read with its audit. */
  method CompareFiles(x: Case, order: seq<string>, n: nat) returns (failures: seq<Code>)
    requires n <= |order| && GoodPrefix(x, order, n)
    requires n < |order| ==> !GoodRecord(order[n], Listed(x, order[n]))
    ensures forall c :: c in failures <==> Faulty(x, order, c)
  {
    hide GoodRecord, Listed, FileFault;
    failures := [];
    for i := 0 to n
      invariant forall c :: c in failures <==> exists k :: 0 <= k < i && FileFault(x, order[k], c)
    {
      var faults := CompareFile(x, order[i]);
      failures := failures + faults;
    }
    forall c ensures c in failures <==> Faulty(x, order, c) {
      FaultyIsEarly(x, order, n, c);
    }
  }

  lemma FaultyIsEarly(x: Case, order: seq<string>, n: nat, c: Code)
    requires n <= |order| && GoodPrefix(x, order, n)
    requires n < |order| ==> !GoodRecord(order[n], Listed(x, order[n]))
    ensures Faulty(x, order, c) <==> exists k :: 0 <= k < n && FileFault(x, order[k], c)
  {
    hide GoodRecord, Listed, FileFault;
    forall j | 1 <= j <= |order| ensures GoodPrefix(x, order, j) <==> j <= n {
      if j > n {
        assert !GoodRecord(order[n], Listed(x, order[n]));
      }
    }
  }

  /** dict.fromkeys: each failure once. */
  method Unique(xs: seq<Code>) returns (r: seq<Code>)
    ensures forall c :: c in r <==> c in xs
    ensures forall i, k :: 0 <= i < k < |r| ==> r[i] != r[k]
  {
    r := [];
    for i := 0 to |xs|
      invariant forall c :: c in r <==> c in xs[..i]
      invariant forall j, k :: 0 <= j < k < |r| ==> r[j] != r[k]
    {
      assert xs[..i + 1] == xs[..i] + [xs[i]];
      if xs[i] !in r { r := r + [xs[i]]; }
    }
    assert xs[..|xs|] == xs;
  }

  method EvaluateInstalledManifestFiles(x: Case, order: seq<string>) returns (failures: seq<Code>)
    requires Readable(Installed(x)) && FileOrder(x, order)
    ensures forall c :: c in failures <==> FileCause(x, order, c)
    ensures forall i, k :: 0 <= i < k < |failures| ==> failures[i] != failures[k]
  {
    hide Readable, Installed, Get, FilesPresent, AuditReadable, SameFileSet, GoodPrefix, Faulty, FileOrder,
      ValidSha256;
    failures := [];
    if !ValidSha256(Get(x.remote, "installedManifestSha256")) { failures := failures + [InstalledManifestHashMissing]; }
    if !FilesPresent(x) {
      failures := failures + [InstalledManifestFilesInvalid];
      return;
    }
    var n := ReadRecords(x, order);
    PrefixComplete(x, order, n);
    if n < |order| { failures := failures + [InstalledManifestFilesInvalid]; }
    if !AuditReadable(x) {
      failures := failures + [InstalledManifestFileAuditUnreadable];
    } else if !SameFileSet(x) {
      failures := failures + [InstalledManifestFileSetMismatch];
    } else {
      var faults := CompareFiles(x, order, n);
      FaultCodes(x, order);
      failures := failures + faults;
    }
    failures := Unique(failures);
  }

  lemma PrefixComplete(x: Case, order: seq<string>, n: nat)
    requires n <= |order| && GoodPrefix(x, order, n)
    requires n < |order| ==> !GoodRecord(order[n], Listed(x, order[n]))
    ensures GoodPrefix(x, order, |order|) <==> n == |order|
  {
  }

  lemma FaultCodes(x: Case, order: seq<string>)
    ensures forall c :: Faulty(x, order, c) ==>
              c in {InstalledManifestFileAuditUnreadable, InstalledManifestFileSizeMismatch,
                    InstalledManifestFileHashMismatch}
  {
    hide GoodPrefix, GoodAudit, Audited, Listed, Get;
  }

  // ---- the build inputs ----

  method CheckInput(x: Case, p: string) returns (failures: seq<Code>)
    requires p in x.tables.inputs
    ensures forall c :: c in failures <==> InputFault(x, p, c)
  {
    hide GoodInput, Packaged, Equal, Get, LiveInputs, MarkerInputs;
    failures := [];
    if !GoodInput(x, p) { return [RemoteBuildInputAuditInvalid]; }
    if !Equal(Get(Get(LiveInputs(x), p), "sha256"), Get(MarkerInputs(x), p)) {
      failures := failures + [RemoteBuildInputMarkerHashMismatch];
    }
    if !Packaged(x, p) { failures := failures + [PackagedBuildInputHashMismatch]; }
  }

  /** `order` lists the packaged build inputs. */
  method CheckInputs(x: Case, order: seq<string>) returns (failures: seq<Code>)
    requires forall p :: p in order <==> p in x.tables.inputs
    ensures forall c :: c in failures <==> InputCause(x, c)
  {
    hide Keyed, LiveInputs, MarkerInputs, MarkerInputsValid, InputFault;
    failures := [];
    if !MarkerInputsValid(x) { failures := failures + [RemoteWorkspaceMarkerBuildInputsInvalid]; }
    if !Keyed(LiveInputs(x), x) {
      failures := failures + [RemoteBuildInputAuditInvalid];
    } else if MarkerInputs(x).Obj? {
      var faults: seq<Code> := [];
      for i := 0 to |order|
        invariant forall c :: c in faults <==> exists k :: 0 <= k < i && InputFault(x, order[k], c)
      {
        var found := CheckInput(x, order[i]);
        faults := faults + found;
      }
      InputFaultsFound(x, order, faults);
      failures := failures + faults;
    }
  }

  lemma InputFaultsFound(x: Case, order: seq<string>, faults: seq<Code>)
    requires forall p :: p in order <==> p in x.tables.inputs
    requires forall c :: c in faults <==> exists k :: 0 <= k < |order| && InputFault(x, order[k], c)
    ensures forall c :: c in faults <==> InputFaulty(x, c)
    ensures forall c :: InputFaulty(x, c) ==>
              c in {RemoteBuildInputAuditInvalid, RemoteBuildInputMarkerHashMismatch, PackagedBuildInputHashMismatch}
  {
    hide GoodInput, Packaged, Equal, Get;
    forall c ensures c in faults <==> InputFaulty(x, c) {
      if InputFaulty(x, c) {
        var p :| p in x.tables.inputs && InputFault(x, p, c);
        assert p in order;
      }
    }
  }

  // ---- the service launch ----

  method CheckUnit(x: Case) returns (failures: seq<Code>)
    ensures forall c :: c in failures <==> UnitCause(x, c)
  {
    hide UnitUsable, Readable, Launch, LaunchFiles, Fragment, Unit, DropInList, ExpectedFiles, Get, Equal;
    failures := [];
    if !UnitUsable(x) { return [TrustedServiceUnitMissing]; }
    if !Readable(Launch(x)) { return [ServiceLaunchAuditUnreadable]; }
    if Get(Launch(x), "service") != Str(x.tables.service) { failures := failures + [ServiceLaunchNameMismatch]; }
    if !LaunchFiles(x).Obj? { return failures + [ServiceLaunchFilesUnreadable]; }
    var files := CheckUnitFiles(x);
    UnitFileCodes(x);
    failures := failures + files;
  }

  /** The four failures about the files systemd loads. */
  predicate UnitFileCause(x: Case, c: Code) {
    && c in {ServiceUnitReceiptMismatch, ServiceDropinSetMismatch, ServiceDropinContentMismatch,
             ServiceLaunchFileSetMismatch}
    && UnitCause(x, c)
  }

  lemma UnitFileCodes(x: Case)
    requires LaunchRead(x)
    ensures forall c :: UnitCause(x, c) <==> (c == ServiceLaunchNameMismatch && UnitCause(x, c)) || UnitFileCause(x, c)
  {
    hide UnitUsable, Readable, Launch, LaunchFiles, Fragment, Unit, DropInList, ExpectedFiles, Get, Equal;
  }

  method CheckUnitFiles(x: Case) returns (failures: seq<Code>)
    requires LaunchRead(x)
    ensures forall c :: c in failures <==> UnitFileCause(x, c)
  {
    hide UnitUsable, Readable, Launch, LaunchFiles, Fragment, Unit, DropInList, ExpectedFiles, Get, Equal, DropInPath,
      DropInRecord;
    failures := [];
    var f := Get(LaunchFiles(x), Fragment(x));
    if !(f.Obj? && Equal(Get(f, "sizeBytes"), Get(Unit(x), "sizeBytes"))
         && Get(f, "sha256") == Get(Unit(x), "sha256")) {
      failures := failures + [ServiceUnitReceiptMismatch];
    }
    if Get(Launch(x), "dropInPaths") != DropInList(x) { failures := failures + [ServiceDropinSetMismatch]; }
    var same := DropInsMatch(x);
    if !same { failures := failures + [ServiceDropinContentMismatch]; }
    if LaunchFiles(x).fields.Keys != ExpectedFiles(x) { failures := failures + [ServiceLaunchFileSetMismatch]; }
  }

  /** Stops at the first drop-in whose receipt differs. */
  method DropInsMatch(x: Case) returns (same: bool)
    ensures same <==> forall d :: d in x.tables.dropins ==>
            Equal(Get(LaunchFiles(x), DropInPath(x, d)), DropInRecord(x, d))
  {
    hide LaunchFiles, DropInPath, DropInRecord, Get, Equal;
    var ds := x.tables.dropins;
    for i := 0 to |ds|
      invariant forall k :: 0 <= k < i ==> Equal(Get(LaunchFiles(x), DropInPath(x, ds[k])), DropInRecord(x, ds[k]))
    {
      if !Equal(Get(LaunchFiles(x), DropInPath(x, ds[i])), DropInRecord(x, ds[i])) { return false; }
    }
    return true;
  }

  method CheckShow(x: Case) returns (failures: seq<Code>)
    requires LaunchRead(x)
    ensures forall c :: c in failures <==> ShowCause(x, c)
  {
    hide LaunchRead, Launch, Fragment, LaunchScript, Get, Contains;
    failures := [];
    var show := Get(Launch(x), "show");
    if !show.Obj? { return [ServiceEffectivePropertiesUnreadable]; }
    if Get(show, "FragmentPath") != Str(Fragment(x)) { failures := failures + [ServiceFragmentPathMismatch]; }
    if Get(show, "WorkingDirectory") != Str(x.root + "/current") {
      failures := failures + [ServiceWorkingDirectoryMismatch];
    }
    var start := Get(show, "ExecStart");
    if !(start.Str? && Contains(start.s, LaunchScript(x))) { failures := failures + [ServiceExecStartMismatch]; }
  }

  method CheckProcess(x: Case, r: Json) returns (failures: seq<Code>)
    ensures forall c :: c in failures <==> ProcessFault(x, r, c)
  {
    hide GoodProcess, ExpectedProcess, Obc, Radio, Get, RadioHash, Runs;
    failures := [];
    if !GoodProcess(r) {
      UnreadableRunsNothing(r, Obc(x));
      UnreadableRunsNothing(r, Radio(x));
      return [ServiceProcessTreeUnreadable];
    }
    if !ExpectedProcess(x, r) { failures := failures + [ServiceProcessExecutableUnexpected]; }
    if Runs(r, Obc(x)) && Get(r, "executableSha256") != Get(x.remote, "installedObcSha256") {
      failures := failures + [ServiceProcessObcHashMismatch];
    }
    if Runs(r, Radio(x)) && Get(r, "executableSha256") != RadioHash(x) {
      failures := failures + [ServiceProcessRadioHashMismatch];
    }
  }

  lemma UnreadableRunsNothing(r: Json, executable: string)
    requires !GoodProcess(r)
    ensures !Runs(r, executable)
  {
  }

  /** One pass over the process tree: faults of single records, and the three counts. */
  method WalkProcesses(x: Case, tree: seq<Json>) returns (faults: seq<Code>, launchers: nat, obcs: nat, radios: nat)
    ensures forall c :: c in faults <==> ProcessFaulty(x, tree, c)
    ensures launchers == Count(tree, r => Launches(r, LaunchScript(x)))
    ensures obcs == Count(tree, r => Runs(r, Obc(x))) && radios == Count(tree, r => Runs(r, Radio(x)))
  {
    hide ProcessFault, Launches, Runs, Obc, Radio, LaunchScript;
    faults, launchers, obcs, radios := [], 0, 0, 0;
    for i := 0 to |tree|
      invariant forall c :: c in faults <==> exists k :: 0 <= k < i && ProcessFault(x, tree[k], c)
      invariant launchers == Count(tree[..i], r => Launches(r, LaunchScript(x)))
      invariant obcs == Count(tree[..i], r => Runs(r, Obc(x)))
      invariant radios == Count(tree[..i], r => Runs(r, Radio(x)))
    {
      var r := tree[i];
      var found := CheckProcess(x, r);
      faults := faults + found;
      CountNext(tree, i, r => Launches(r, LaunchScript(x)));
      CountNext(tree, i, r => Runs(r, Obc(x)));
      CountNext(tree, i, r => Runs(r, Radio(x)));
      if Launches(r, LaunchScript(x)) { launchers := launchers + 1; }
      if Runs(r, Obc(x)) { obcs := obcs + 1; }
      if Runs(r, Radio(x)) { radios := radios + 1; }
    }
    assert tree[..|tree|] == tree;
  }

  lemma CountNext(tree: seq<Json>, i: nat, p: Json -> bool)
    requires i < |tree|
    ensures Count(tree[..i + 1], p) == Count(tree[..i], p) + if p(tree[i]) then 1 else 0
  {
    assert tree[..i + 1][..i] == tree[..i];
  }

  method CheckProcesses(x: Case) returns (failures: seq<Code>)
    requires LaunchRead(x)
    ensures forall c :: c in failures <==> ProcessCause(x, c)
  {
    hide LaunchRead, Processes, ProcessFaulty, Launches, Runs, Obc, Radio, LaunchScript, Count;
    if !Processes(x).Arr? || Processes(x).items == [] { return [ServiceProcessTreeMissing]; }
    var faults, launchers, obcs, radios := WalkProcesses(x, Processes(x).items);
    FaultsAreNotCounts(x, Processes(x).items);
    failures := faults;
    if launchers != 1 { failures := failures + [ServiceLauncherProcessMismatch]; }
    if obcs != 1 { failures := failures + [ServiceObcProcessMismatch]; }
    if radios != 1 { failures := failures + [ServiceRadioProcessMismatch]; }
  }

  lemma FaultsAreNotCounts(x: Case, tree: seq<Json>)
    ensures forall c :: ProcessFaulty(x, tree, c) ==>
              c !in {ServiceProcessTreeMissing, ServiceLauncherProcessMismatch, ServiceObcProcessMismatch,
                     ServiceRadioProcessMismatch}
  {
    hide GoodProcess, ExpectedProcess, Runs, Get;
  }

  method EvaluateServiceLaunch(x: Case) returns (failures: seq<Code>)
    ensures forall c :: c in failures <==> ServiceCause(x, c)
    ensures forall i, k :: 0 <= i < k < |failures| ==> failures[i] != failures[k]
  {
    hide UnitCause, ShowCause, ProcessCause, UnitUsable, Readable, Launch, LaunchFiles;
    failures := CheckUnit(x);
    if !LaunchRead(x) {
      NothingLaunched(x);
      failures := Unique(failures);
      return;
    }
    var show := CheckShow(x);
    var processes := CheckProcesses(x);
    failures := Unique(failures + show + processes);
  }

  lemma NothingLaunched(x: Case)
    requires !LaunchRead(x)
    ensures forall c :: !ShowCause(x, c) && !ProcessCause(x, c)
  {
    hide LaunchRead, Processes, Get, Fragment, LaunchScript, ProcessFaulty, Count;
  }

  // ---- the whole check ----

  /** `order` is the order of the manifest's file records, `inputs` lists the packaged build inputs. */
  method EvaluateProvenance(x: Case, order: seq<string>, inputs: seq<string>) returns (failures: seq<Code>)
    requires FileOrder(x, order) && forall p :: p in inputs <==> p in x.tables.inputs
    ensures forall c :: c in failures <==> Cause(x, order, c)
    ensures failures == [] <==> Accepted(x, order)
    ensures failures == [] <==> ProvenanceFacts.Facts(x)
  {
    failures := EvaluateLinks(x, order, inputs);
    hide *;
    NoFailures(x, order, failures);
    ProvenanceFacts.AcceptedExactly(x, order);
  }

  lemma NoFailures(x: Case, order: seq<string>, failures: seq<Code>)
    requires forall c :: c in failures <==> Cause(x, order, c)
    ensures failures == [] <==> Accepted(x, order)
  {
    hide Cause;
    if failures != [] { assert failures[0] in failures; }
  }

  method EvaluateLinks(x: Case, order: seq<string>, inputs: seq<string>) returns (failures: seq<Code>)
    requires FileOrder(x, order) && forall p :: p in inputs <==> p in x.tables.inputs
    ensures forall c :: c in failures <==> Cause(x, order, c)
  {
    hide LocalCause, MarkerCause, ContentCause, BuildCause, ManifestCause, FileCause, ReleaseCause, InputCause,
      ServiceCause, Captured, Readable, Installed, FileOrder;
    failures := CheckLocal(x);
    if !Captured(x) { return; }
    var marker := CheckMarker(x);
    var content := CheckContent(x);
    var build := CheckBuild(x);
    var manifest := CheckManifest(x);
    var files: seq<Code> := [];
    NoManifestNoFiles(x, order);
    if Readable(Installed(x)) { files := EvaluateInstalledManifestFiles(x, order); }
    var release := CheckRelease(x);
    var built := CheckInputs(x, inputs);
    var service := EvaluateServiceLaunch(x);
    failures := failures + marker + content + build + manifest + files + release + built + service;
  }

  lemma NoManifestNoFiles(x: Case, order: seq<string>)
    ensures !Readable(Installed(x)) ==> forall c :: !FileCause(x, order, c)
  {
    hide Readable, Installed, FilesPresent, AuditReadable, SameFileSet, GoodPrefix, Faulty, Get;
  }
}
