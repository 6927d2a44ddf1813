/** When the provenance check accepts, said of the documents alone: every fact an accepted pair of documents shows,
  * and that showing them all is enough. */
module ProvenanceFacts {
  import opened Json
  import opened Provenance
  import PosixPath
  import ProvenanceChain
  import ProvenanceComplete

  // ---- the facts ----

  /** The revision the local document names: branch, head and version. */
  datatype Revision = Revision(branch: string, head: string, version: string)

  function Named(x: Case): Revision {
    Revision(Text(Get(x.local, "branch"), x.repr), Text(Get(x.local, "head"), x.repr),
             Text(Get(x.local, "projectVersion"), x.repr))
  }

  predicate HexDigit(c: char) {
    c in "0123456789abcdefABCDEF"
  }

  /** A clean named revision with nothing untracked, and a capture that worked. */
  ghost predicate LocalFacts(x: Case) {
    var r := Named(x);
    && r.branch != "" && |r.head| == 40 && (forall c :: c in r.head ==> HexDigit(c))
    && r.version != "" && (forall s: string :: s + "-dirty" != r.version)
    && Get(x.local, "unexpectedUntrackedPaths") == Arr([]) && !Truthy(Get(x.remote, "captureError"))
  }

  /** The workspace marker is of schema 3 and names the same revision. */
  predicate MarkerFacts(x: Case) {
    var m, r := Get(x.remote, "workspaceMarker"), Named(x);
    && Readable(m) && Number(Get(m, "schemaVersion")) && NumberOf(Get(m, "schemaVersion")) == 3.0
    && Get(m, "branch") == Str(r.branch) && Get(m, "head") == Str(r.head) && Get(m, "projectVersion") == Str(r.version)
  }

  function SummaryDoc(count: nat, digest: string): Json {
    Obj(map["format" := Str("route1-git-indexed-workspace-v1"), "algorithm" := Str("sha256"), "fileCount" := Int(count),
            "digest" := Str(digest)])
  }

  /** Local and remote workspace have one and the same content summary, the marker too, next to so many sorted safe
    * paths. */
  ghost predicate ContentFacts(x: Case) {
    exists paths: seq<string>, digest: string ::
      OneContent(Get(x.local, "trackedContent"), Get(x.remote, "workspaceTrackedContent"),
                 Get(Get(x.remote, "workspaceMarker"), "trackedContent"), paths, digest)
  }

  ghost predicate OneContent(here: Json, there: Json, marked: Json, paths: seq<string>, digest: string) {
    && |digest| == 64 && Hex(digest) && here == SummaryDoc(|paths|, digest) && there == SummaryDoc(|paths|, digest)
    && Get(marked, "format") == Str("route1-git-indexed-workspace-v1") && Get(marked, "algorithm") == Str("sha256")
    && Get(marked, "fileCount") == Int(|paths|) && Get(marked, "digest") == Str(digest)
    && Get(marked, "paths") == Arr(seq(|paths|, i requires 0 <= i < |paths| => Str(paths[i])))
    && (forall i :: 0 <= i < |paths| ==> PosixPath.Safe(paths[i]))
    && (forall i, k :: 0 <= i < k < |paths| ==> PosixPath.Less(paths[i], paths[k]))
  }

  /** Both builds carry the version, and git in the workspace, if it is there, the head. */
  predicate BuildFacts(x: Case) {
    var git, r := Get(x.remote, "workspaceGitHead"), Named(x);
    var built, installed := Get(x.remote, "remoteBuildMetadata"), Get(x.remote, "installedBuildMetadata");
    && !Truthy(Get(x.remote, "workspaceGitError")) && (git == Null || git == Str(r.head))
    && Readable(built) && Get(built, "project_version") == Str(r.version)
    && Readable(installed) && Get(installed, "project_version") == Str(r.version)
  }

  /** The installed manifest is the trusted one, of this version and workspace. */
  predicate ManifestFacts(x: Case) {
    var m, t := Get(x.remote, "installedManifest"), Get(x.local, "trustedInstalledManifest");
    && Readable(m) && Get(m, "project_version") == Str(Named(x).version)
    && Get(m, "source_remote_dir") == Str(x.workspace)
    && Readable(t) && ValidSha256(Get(t, "sha256")) && Get(t, "manifest").Obj?
    && Get(x.remote, "installedManifestSha256") == Get(t, "sha256") && Equal(m, Get(t, "manifest"))
  }

  function FilesOf(x: Case): Json { Get(Get(x.remote, "installedManifest"), "files") }
  function AuditOf(x: Case): Json { Get(Get(x.remote, "installedManifestFileAudit"), "files") }

  /** Exactly the listed files were audited, each found with its listed size and hash. */
  ghost predicate FileFacts(x: Case) {
    var audit := Get(x.remote, "installedManifestFileAudit");
    && ValidSha256(Get(x.remote, "installedManifestSha256"))
    && Readable(audit) && Get(audit, "format") == Str("route1-installed-manifest-files-v1")
    && FilesOf(x).Obj? && FilesOf(x).fields != map[] && AuditOf(x).Obj?
    && AuditOf(x).fields.Keys == FilesOf(x).fields.Keys
    && forall p :: p in FilesOf(x).fields ==> FileShown(p, Get(FilesOf(x), p), Get(AuditOf(x), p))
  }

  predicate FileShown(p: string, listed: Json, found: Json) {
    && PosixPath.Safe(p) && listed.Obj? && Readable(found)
    && Get(listed, "size_bytes").Int? && Get(listed, "size_bytes").n >= 0
    && Get(found, "sizeBytes") == Get(listed, "size_bytes")
    && ValidSha256(Get(listed, "sha256")) && Get(found, "sha256") == Get(listed, "sha256")
  }

  /** The release pointer names the manifest's release, and the OBC program in it has the listed hash. */
  predicate ReleaseFacts(x: Case) {
    var m := Get(x.remote, "installedManifest");
    var id := Text(Get(m, "release_id"), x.repr);
    var release := PosixPath.Under(x.root, ["releases", id]);
    var hash := Text(Get(x.remote, "installedObcSha256"), x.repr);
    && id != "" && Get(x.remote, "installedReleasePointer") == Str(release)
    && release + "/" <= Text(Get(x.remote, "installedObcPath"), x.repr)
    && |hash| == 64 && Get(Get(FilesOf(x), "bin/OBC"), "sha256") == Str(hash)
  }

  /** For exactly the packaged inputs: built where the table says, with one hash in the marker, the workspace and the
    * manifest. */
  ghost predicate InputFacts(x: Case) {
    var built, live := Get(Get(x.remote, "workspaceMarker"), "builtInputSha256"), Get(x.remote, "remoteBuildInputs");
    && built.Obj? && live.Obj? && built.fields.Keys == live.fields.Keys == x.tables.inputs.Keys
    && forall p :: p in x.tables.inputs ==>
         InputShown(x, p, Get(built, p), Get(live, p), Get(FilesOf(x), p))
  }

  predicate InputShown(x: Case, p: string, hash: Json, live: Json, listed: Json)
    requires p in x.tables.inputs
  {
    && ValidSha256(hash) && live.Obj? && listed.Obj?
    && Get(live, "path") == Str(PosixPath.Under(x.workspace, [x.tables.inputs[p]]))
    && Get(live, "sha256") == hash && Get(listed, "sha256") == hash
  }

  function UnitPath(x: Case): string { "/etc/systemd/system/" + x.tables.service }
  function PathOf(x: Case, d: DropIn): string { UnitPath(x) + ".d/" + d.name }
  function LaunchDoc(x: Case): Json { Get(x.remote, "serviceLaunchAudit") }

  function DropInDoc(x: Case): Json {
    var ds := x.tables.dropins;
    Arr(seq(|ds|, i requires 0 <= i < |ds| => Str(PathOf(x, ds[i]))))
  }

  /** The service loads the trusted unit and exactly the table's drop-ins with their contents. */
  ghost predicate UnitFacts(x: Case) {
    var unit, launch := Get(x.local, "trustedServiceUnit"), LaunchDoc(x);
    var files, ds := Get(launch, "files"), x.tables.dropins;
    && Readable(unit) && (Get(unit, "sizeBytes").Int? || Get(unit, "sizeBytes").Bool?)
    && ValidSha256(Get(unit, "sha256")) && Readable(launch) && Get(launch, "service") == Str(x.tables.service)
    && files.Obj? && (forall p :: p in files.fields <==> p == UnitPath(x) || exists d :: d in ds && p == PathOf(x, d))
    && Get(files, UnitPath(x)).Obj?
    && Equal(Get(Get(files, UnitPath(x)), "sizeBytes"), Get(unit, "sizeBytes"))
    && Get(Get(files, UnitPath(x)), "sha256") == Get(unit, "sha256")
    && Get(launch, "dropInPaths") == DropInDoc(x)
    && forall d :: d in ds ==>
         Equal(Get(files, PathOf(x, d)), Obj(map["sizeBytes" := Int(|d.content|), "sha256" := Str(x.sha(d.content))]))
  }

  function Script(x: Case): string { x.root + "/current/launch/run_obc_comm_csp_stack.sh" }

  /** systemd runs that unit, in the current release, with the launch script. */
  ghost predicate ShowFacts(x: Case) {
    var show := Get(LaunchDoc(x), "show");
    && show.Obj? && Get(show, "FragmentPath") == Str(UnitPath(x))
    && Get(show, "WorkingDirectory") == Str(x.root + "/current")
    && exists before, after :: Get(show, "ExecStart") == Str(before + Script(x) + after)
  }

  predicate ProcessShown(r: Json) {
    r.Obj? && Get(r, "argv").Arr? && Get(r, "executable").Str? && ValidSha256(Get(r, "executableSha256"))
  }

  /** Exactly one position of the sequence satisfies p. */
  ghost predicate ExactlyOne(rs: seq<Json>, p: Json -> bool) {
    exists i :: Only(rs, p, i)
  }

  predicate Only(rs: seq<Json>, p: Json -> bool, i: int) {
    0 <= i < |rs| && p(rs[i]) && forall k :: 0 <= k < |rs| && k != i ==> !p(rs[k])
  }

  /** Only the two programs and shells run: the script and either program once, the programs with the hashes of the
    * release. */
  ghost predicate ProcessFacts(x: Case) {
    var tree, pointer := Get(LaunchDoc(x), "processTree"), Text(Get(x.remote, "installedReleasePointer"), x.repr);
    var obc, radio := pointer + "/bin/OBC", pointer + "/bin/radio_mock_server";
    && tree.Arr?
    && (forall r :: r in tree.items ==>
          && ProcessShown(r)
          && Get(r, "executable").s in {obc, radio, "/usr/bin/bash", "/bin/bash"}
          && (Get(r, "executable").s == obc ==> Get(r, "executableSha256") == Get(x.remote, "installedObcSha256"))
          && (Get(r, "executable").s == radio ==>
                Get(r, "executableSha256") == Get(Get(FilesOf(x), "bin/radio_mock_server"), "sha256")))
    && ExactlyOne(tree.items, r => Launches(r, Script(x)))
    && ExactlyOne(tree.items, r => Runs(r, obc)) && ExactlyOne(tree.items, r => Runs(r, radio))
  }

  ghost predicate Facts(x: Case) {
    && LocalFacts(x) && MarkerFacts(x) && ContentFacts(x) && BuildFacts(x) && ManifestFacts(x) && FileFacts(x)
    && ReleaseFacts(x) && InputFacts(x) && UnitFacts(x) && ShowFacts(x) && ProcessFacts(x)
  }

  // ---- the revision ----

  lemma HexSame(s: string)
    ensures Hex(s) <==> forall c :: c in s ==> HexDigit(c)
  {
    forall c: char ensures HexChar(c) <==> HexDigit(c) { DigitSame(c); }
    hide HexChar, HexDigit;
    if forall c :: c in s ==> HexDigit(c) {
      forall i | 0 <= i < |s| ensures HexChar(s[i]) { assert s[i] in s; }
    }
  }

  lemma DigitSame(c: char)
    ensures HexChar(c) <==> HexDigit(c)
  {
    var all := "0123456789abcdefABCDEF";
    assert |all| == 22;
    if HexChar(c) {
      var i := if c <= '9' then c as int - '0' as int else if c >= 'a' then 10 + (c as int - 'a' as int)
               else 16 + (c as int - 'A' as int);
      assert all[i] == c;
    }
  }

  lemma DirtySame(s: string)
    ensures EndsWith(s, "-dirty") <==> exists t: string :: t + "-dirty" == s
  {
    if EndsWith(s, "-dirty") {
      assert s[..|s| - 6] + "-dirty" == s;
    }
    if t: string :| t + "-dirty" == s {
      assert s[|s| - 6..] == "-dirty";
    }
  }

  lemma LocalExact(x: Case)
    ensures (forall c :: !LocalCause(x, c)) <==> LocalFacts(x)
  {
    HexSame(Head(x));
    DirtySame(Version(x));
    assert Named(x) == Revision(Branch(x), Head(x), Version(x));
    hide Branch, Head, Version, Hex, EndsWith, Get, HexDigit, Named, Truthy;
    if forall c :: !LocalCause(x, c) {
      assert !LocalCause(x, LocalBranchMissing) && !LocalCause(x, LocalHeadInvalid);
      assert !LocalCause(x, LocalProjectVersionMissing) && !LocalCause(x, LocalTrackedWorktreeDirty);
      assert !LocalCause(x, LocalUntrackedAuditMissing) && !LocalCause(x, LocalUntrackedInputsPresent);
      assert !LocalCause(x, RemoteCaptureFailed);
    }
  }

  lemma MarkerExact(x: Case)
    ensures (forall c :: !MarkerCause(x, c)) <==> MarkerFacts(x)
  {
    var v := Get(Marker(x), "schemaVersion");
    assert Equal(v, Int(3)) <==> Number(v) && NumberOf(v) == 3.0;
    assert Named(x) == Revision(Branch(x), Head(x), Version(x));
    hide Branch, Head, Version, Get, Named, Equal, Number, NumberOf, Readable;
    if forall c :: !MarkerCause(x, c) {
      assert !MarkerCause(x, RemoteWorkspaceMarkerMissing) && !MarkerCause(x, RemoteWorkspaceMarkerSchemaMismatch);
      assert !MarkerCause(x, RemoteWorkspaceBranchMismatch) && !MarkerCause(x, RemoteWorkspaceHeadMismatch);
      assert !MarkerCause(x, RemoteWorkspaceVersionMismatch);
    }
  }

  lemma BuildExact(x: Case)
    ensures (forall c :: !BuildCause(x, c)) <==> BuildFacts(x)
  {
    hide BuildCause, BuildFacts;
    if forall c :: !BuildCause(x, c) { BuildShown(x); }
    if BuildFacts(x) { NoBuildCause(x); }
  }

  lemma VersionNamed(x: Case)
    ensures Named(x) == Revision(Branch(x), Head(x), Version(x))
  {
    hide Get, Text;
  }

  lemma BuildShown(x: Case)
    requires forall c :: !BuildCause(x, c)
    ensures BuildFacts(x)
  {
    hide Branch, Head, Version, Get, Named, Readable, Truthy;
    VersionNamed(x);
    assert !BuildCause(x, RemoteWorkspaceGitUnreadable) && !BuildCause(x, RemoteWorkspaceGitHeadMismatch);
    assert !BuildCause(x, RemoteBuildVersionMismatch) && !BuildCause(x, InstalledBuildVersionMismatch);
  }

  lemma NoBuildCause(x: Case)
    requires BuildFacts(x)
    ensures forall c :: !BuildCause(x, c)
  {
    hide Branch, Head, Version, Get, Named, Readable, Truthy;
    VersionNamed(x);
  }

  lemma ManifestExact(x: Case)
    ensures (forall c :: !ManifestCause(x, c)) <==> ManifestFacts(x)
  {
    hide ManifestCause, ManifestFacts;
    if forall c :: !ManifestCause(x, c) { ManifestShown(x); }
    if ManifestFacts(x) { NoManifestCause(x); }
  }

  lemma ManifestShown(x: Case)
    requires forall c :: !ManifestCause(x, c)
    ensures ManifestFacts(x)
  {
    hide Branch, Head, Version, Get, Named, Readable, Equal, ValidSha256;
    VersionNamed(x);
    assert !ManifestCause(x, InstalledManifestMissing) && !ManifestCause(x, InstalledManifestVersionMismatch);
    assert !ManifestCause(x, InstalledManifestWorkspaceMismatch);
    assert !ManifestCause(x, TrustedInstalledManifestMissing);
    assert !ManifestCause(x, InstalledManifestTrustedHashMismatch);
    assert !ManifestCause(x, InstalledManifestTrustedContentMismatch);
  }

  lemma NoManifestCause(x: Case)
    requires ManifestFacts(x)
    ensures forall c :: !ManifestCause(x, c)
  {
    hide Branch, Head, Version, Get, Named, Readable, Equal, ValidSha256;
    VersionNamed(x);
  }

  // ---- the content ----

  const SUMMARY_KEYS: set<string> := {"format", "algorithm", "fileCount", "digest"}

  lemma SummaryFields(count: nat, digest: string)
    ensures var s := SummaryDoc(count, digest);
            && s.fields.Keys == SUMMARY_KEYS && Get(s, "format") == Str(TRACKED_CONTENT_FORMAT)
            && Get(s, "algorithm") == Str("sha256") && Get(s, "fileCount") == Int(count)
            && Get(s, "digest") == Str(digest)
  {
  }

  /** A document with these four fields is that summary. */
  lemma SummaryIs(j: Json, count: nat, digest: string)
    requires j.Obj? && j.fields.Keys == SUMMARY_KEYS
    requires Get(j, "format") == Str(TRACKED_CONTENT_FORMAT) && Get(j, "algorithm") == Str("sha256")
    requires Get(j, "fileCount") == Int(count) && Get(j, "digest") == Str(digest)
    ensures j == SummaryDoc(count, digest)
  {
    SummaryFields(count, digest);
    var s := SummaryDoc(count, digest);
    hide SummaryDoc;
    forall k | k in j.fields ensures j.fields[k] == s.fields[k] {
      assert j.fields[k] == Get(j, k) && s.fields[k] == Get(s, k);
    }
    assert j.fields == s.fields;
  }

  lemma WithoutFields(j: Json)
    ensures var w := WithoutPaths(j);
            && w.Obj? && w.fields.Keys == SUMMARY_KEYS && Get(w, "format") == Get(j, "format")
            && Get(w, "algorithm") == Get(j, "algorithm") && Get(w, "fileCount") == Get(j, "fileCount")
            && Get(w, "digest") == Get(j, "digest")
  {
  }

  /** A valid summary equal to one with just the four fields has just those, and the same count and digest. */
  lemma EqualSummaries(a: Json, b: Json)
    requires a.Obj? && Equal(a, b) && a.fields.Keys == SUMMARY_KEYS && ValidSummary(a) && ValidSummary(b)
    ensures b.Obj? && b.fields.Keys == SUMMARY_KEYS && Get(b, "fileCount") == Get(a, "fileCount")
            && Get(b, "digest") == Get(a, "digest")
  {
    EqualGet(a, b, "fileCount");
    EqualGet(a, b, "digest");
    EqualPlain(Get(a, "fileCount"), Get(b, "fileCount"));
    EqualText(Get(a, "digest"), Get(b, "digest"));
    assert b.Obj? && b.fields.Keys == a.fields.Keys;
    hide Get, ValidSummary;
  }

  lemma EqualPlain(a: Json, b: Json)
    requires a.Int? && b.Int? && Equal(a, b)
    ensures a == b
  {
  }

  lemma EqualText(a: Json, b: Json)
    requires a.Str? && Equal(a, b)
    ensures a == b
  {
  }

  lemma ContentExact(x: Case)
    ensures (forall c :: !ContentCause(x, c)) <==> ContentFacts(x)
  {
    hide ContentCause, ContentFacts;
    if forall c :: !ContentCause(x, c) { ContentIsShown(x); }
    if ContentFacts(x) { NoContentCause(x); }
  }

  lemma ContentIsShown(x: Case)
    requires forall c :: !ContentCause(x, c)
    ensures ContentFacts(x)
  {
    hide ValidSummary, ValidTrackedPaths, Equal, WithoutPaths, OneContent;
    var here, there, marked := LocalContent(x), RemoteContent(x), MarkerContent(x);
    assert !ContentCause(x, LocalTrackedContentAuditMissing);
    assert !ContentCause(x, RemoteWorkspaceContentManifestInvalid);
    assert !ContentCause(x, RemoteWorkspaceContentMarkerMismatch);
    assert !ContentCause(x, RemoteWorkspaceContentUnreadable);
    assert !ContentCause(x, RemoteWorkspaceContentMismatch);
    var paths, digest := ContentOf(here, there, marked);
  }

  lemma ContentOf(here: Json, there: Json, marked: Json) returns (paths: seq<string>, digest: string)
    requires ValidSummary(here) && ValidSummary(there) && ValidSummary(marked) && ValidTrackedPaths(marked)
    requires Equal(WithoutPaths(marked), here) && Equal(there, here)
    ensures OneContent(here, there, marked, paths, digest)
  {
    var w := WithoutPaths(marked);
    WithoutFields(marked);
    WithoutValid(marked);
    EqualSummaries(w, here);
    BackEqual(there, here);
    paths := PathsOf(marked);
    digest := Get(marked, "digest").s;
    SummaryParts(here);
    SummaryParts(there);
    SummaryParts(marked);
    hide ValidSummary, ValidTrackedPaths, WithoutPaths, Equal, SummaryDoc, Get, Hex;
    SummaryIs(here, |paths|, digest);
    SummaryIs(there, |paths|, digest);
  }

  lemma SummaryParts(j: Json)
    requires ValidSummary(j)
    ensures Get(j, "format") == Str(TRACKED_CONTENT_FORMAT) && Get(j, "algorithm") == Str("sha256")
    ensures Get(j, "fileCount").Int? && Get(j, "digest").Str? && |Get(j, "digest").s| == 64 && Hex(Get(j, "digest").s)
  {
    hide Get, Hex;
  }

  lemma WithoutValid(j: Json)
    requires ValidSummary(j)
    ensures ValidSummary(WithoutPaths(j))
  {
    WithoutFields(j);
    hide Get, WithoutPaths;
  }

  lemma BackEqual(a: Json, b: Json)
    requires Equal(a, b) && ValidSummary(a) && ValidSummary(b) && b.Obj? && b.fields.Keys == SUMMARY_KEYS
    ensures a.Obj? && a.fields.Keys == SUMMARY_KEYS && Get(b, "fileCount") == Get(a, "fileCount")
            && Get(b, "digest") == Get(a, "digest")
  {
    assert a.Obj? by { SummaryObject(a); }
    EqualSummaries(a, b);
  }

  lemma SummaryObject(j: Json)
    requires ValidSummary(j)
    ensures j.Obj?
  {
  }

  lemma PathsOf(j: Json) returns (paths: seq<string>)
    requires ValidTrackedPaths(j) && Get(j, "fileCount").Int?
    ensures Get(j, "fileCount") == Int(|paths|)
    ensures Get(j, "paths") == Arr(seq(|paths|, i requires 0 <= i < |paths| => Str(paths[i])))
    ensures forall i :: 0 <= i < |paths| ==> PosixPath.Safe(paths[i])
    ensures forall i, k :: 0 <= i < k < |paths| ==> PosixPath.Less(paths[i], paths[k])
  {
    hide Get, PosixPath.Safe, PosixPath.Less;
    var items := Get(j, "paths").items;
    paths := seq(|items|, i requires 0 <= i < |items| => items[i].s);
    EqualPlain(Get(j, "fileCount"), Int(|items|));
    assert items == seq(|paths|, i requires 0 <= i < |paths| => Str(paths[i]));
  }

  lemma NoContentCause(x: Case)
    requires ContentFacts(x)
    ensures forall c :: !ContentCause(x, c)
  {
    var here, there, marked := LocalContent(x), RemoteContent(x), MarkerContent(x);
    hide SummaryDoc, ValidSummary, ValidTrackedPaths, Equal, WithoutPaths, OneContent;
    var paths: seq<string>, digest: string :| OneContent(here, there, marked, paths, digest);
    ContentAgrees(here, there, marked, paths, digest);
  }

  lemma ContentAgrees(here: Json, there: Json, marked: Json, paths: seq<string>, digest: string)
    requires OneContent(here, there, marked, paths, digest)
    ensures ValidSummary(here) && ValidSummary(there) && ValidSummary(marked) && ValidTrackedPaths(marked)
    ensures Equal(WithoutPaths(marked), here) && Equal(there, here)
  {
    SummaryFields(|paths|, digest);
    EqualRefl(here);
    WithoutFields(marked);
    hide SummaryDoc, Get, Equal, WithoutPaths, PosixPath.Safe, PosixPath.Less, Hex;
    SummaryIs(WithoutPaths(marked), |paths|, digest);
    CountIs(marked, |paths|);
  }

  lemma CountIs(j: Json, n: nat)
    requires Get(j, "fileCount") == Int(n)
    ensures Equal(Get(j, "fileCount"), Int(n))
  {
    hide Get;
  }

  // ---- the files ----

  lemma FileExact(x: Case, order: seq<string>)
    requires FileOrder(x, order) && Readable(Installed(x))
    ensures (forall c :: !FileCause(x, order, c)) <==> FileFacts(x)
  {
    hide FileCause, FileFacts, FileOrder, Readable;
    if forall c :: !FileCause(x, order, c) { FilesShown(x, order); }
    if FileFacts(x) { NoFileCause(x, order); }
  }

  lemma FilesShown(x: Case, order: seq<string>)
    requires FileOrder(x, order) && Readable(Installed(x)) && forall c :: !FileCause(x, order, c)
    ensures FileFacts(x)
  {
    assert !FileCause(x, order, InstalledManifestHashMissing);
    assert !ManifestCause(x, InstalledManifestMissing);
    assert !FileCause(x, order, InstalledManifestFilesInvalid);
    assert !FileCause(x, order, InstalledManifestFileAuditUnreadable);
    assert !FileCause(x, order, InstalledManifestFileSetMismatch);
    assert !FileCause(x, order, InstalledManifestFileSizeMismatch);
    assert !FileCause(x, order, InstalledManifestFileHashMismatch);
    HashThere(x, order);
    hide *;
    ProvenanceChain.AuditReady(x, order);
    ProvenanceChain.SameFiles(x);
    AuditParts(x);
    forall p | p in Files(x).fields ensures FileShown(p, Get(Files(x), p), Get(Get(Audit(x), "files"), p)) {
      ProvenanceChain.AuditedFile(x, order, p);
      OneFile(x, p);
    }
    FilesTogether(x);
  }

  lemma HashThere(x: Case, order: seq<string>)
    requires Readable(Installed(x)) && !FileCause(x, order, InstalledManifestHashMissing)
    ensures ValidSha256(Get(x.remote, "installedManifestSha256"))
  {
    hide Readable, Get, ValidSha256;
  }

  lemma AuditParts(x: Case)
    requires Compared(x)
    ensures Readable(Audit(x)) && Get(Audit(x), "format") == Str("route1-installed-manifest-files-v1")
    ensures Files(x).Obj? && Files(x).fields != map[] && Get(Audit(x), "files").Obj?
    ensures Get(Audit(x), "files").fields.Keys == Files(x).fields.Keys
  {
    hide Readable, Get, Installed, Files, Audit;
  }

  lemma OneFile(x: Case, p: string)
    requires GoodRecord(p, Listed(x, p)) && GoodAudit(Audited(x, p))
    requires Get(Audited(x, p), "sizeBytes") == Get(Listed(x, p), "size_bytes")
    requires Get(Audited(x, p), "sha256") == Get(Listed(x, p), "sha256")
    ensures FileShown(p, Get(Files(x), p), Get(Get(Audit(x), "files"), p))
  {
    hide Readable, Get, Files, Audit, ValidSha256, PosixPath.Safe;
  }

  lemma FilesTogether(x: Case)
    requires ValidSha256(Get(x.remote, "installedManifestSha256"))
    requires Readable(Audit(x)) && Get(Audit(x), "format") == Str("route1-installed-manifest-files-v1")
    requires Files(x).Obj? && Files(x).fields != map[] && Get(Audit(x), "files").Obj?
    requires Get(Audit(x), "files").fields.Keys == Files(x).fields.Keys
    requires forall p :: p in Files(x).fields ==> FileShown(p, Get(Files(x), p), Get(Get(Audit(x), "files"), p))
    ensures FileFacts(x)
  {
    assert Files(x) == FilesOf(x) && Get(Audit(x), "files") == AuditOf(x);
    hide Readable, Get, ValidSha256, FileShown, Files, FilesOf, AuditOf;
  }

  lemma NoFileCause(x: Case, order: seq<string>)
    requires FileOrder(x, order) && FileFacts(x)
    ensures forall c :: !FileCause(x, order, c)
  {
    assert Files(x) == FilesOf(x) && Get(Audit(x), "files") == AuditOf(x);
    FilesUsable(x);
    hide FileFacts, FileCause, FilesPresent, AuditReadable, SameFileSet, Get, ValidSha256, Files, Audit, FilesOf,
      AuditOf;
    forall i | 0 <= i < |order|
      ensures GoodRecord(order[i], Listed(x, order[i])) && forall c :: !FileFault(x, order[i], c)
    {
      assert order[i] in order;
      FileClean(x, order[i]);
    }
    ProvenanceComplete.NoFileCause(x, order);
  }

  lemma FilesUsable(x: Case)
    requires FileFacts(x)
    ensures FilesPresent(x) && AuditReadable(x) && SameFileSet(x) && Files(x).Obj?
    ensures ValidSha256(Get(x.remote, "installedManifestSha256"))
  {
    assert Files(x) == FilesOf(x) && Get(Audit(x), "files") == AuditOf(x);
    hide Readable, Get, ValidSha256, Files, FilesOf, AuditOf;
  }

  lemma FileClean(x: Case, p: string)
    requires FileFacts(x) && Files(x).Obj? && p in Files(x).fields
    ensures GoodRecord(p, Listed(x, p)) && forall c :: !FileFault(x, p, c)
  {
    assert Files(x) == FilesOf(x) && Get(Audit(x), "files") == AuditOf(x);
    assert FileShown(p, Get(FilesOf(x), p), Get(AuditOf(x), p));
    hide Readable, Get, ValidSha256, Files, Audit, FilesOf, AuditOf, FileFacts, PosixPath.Safe;
  }

  // ---- the release ----

  lemma ReleaseExact(x: Case)
    requires Readable(Installed(x))
    ensures (forall c :: !ReleaseCause(x, c)) <==> ReleaseFacts(x)
  {
    hide ReleaseCause, ReleaseFacts, Readable;
    if forall c :: !ReleaseCause(x, c) { ReleaseShown(x); }
    if ReleaseFacts(x) { NoReleaseCause(x); }
  }

  lemma ManifestRead(x: Case)
    requires Readable(Installed(x))
    ensures Manifest(x) == Get(x.remote, "installedManifest") && Get(Manifest(x), "files") == FilesOf(x)
  {
    hide Get, Readable;
  }

  lemma ReleaseShown(x: Case)
    requires Readable(Installed(x)) && forall c :: !ReleaseCause(x, c)
    ensures ReleaseFacts(x)
  {
    hide Get, Text, PosixPath.Under, Readable, Manifest, FilesOf;
    ManifestRead(x);
    assert !ReleaseCause(x, InstalledReleasePointerMismatch);
    assert !ReleaseCause(x, InstalledObcPathMismatch);
    assert !ReleaseCause(x, InstalledObcHashMismatch);
  }

  lemma NoReleaseCause(x: Case)
    requires Readable(Installed(x)) && ReleaseFacts(x)
    ensures forall c :: !ReleaseCause(x, c)
  {
    hide Get, Text, PosixPath.Under, Readable, Manifest, FilesOf;
    ManifestRead(x);
  }

  // ---- the build inputs ----

  lemma InputExact(x: Case)
    requires Readable(Installed(x))
    ensures (forall c :: !InputCause(x, c)) <==> InputFacts(x)
  {
    hide InputCause, InputFacts, Readable;
    if forall c :: !InputCause(x, c) { InputsShown(x); }
    if InputFacts(x) { NoInputCause(x); }
  }

  lemma InputsShown(x: Case)
    requires Readable(Installed(x)) && forall c :: !InputCause(x, c)
    ensures InputFacts(x)
  {
    assert !InputCause(x, RemoteWorkspaceMarkerBuildInputsInvalid) && !InputCause(x, RemoteBuildInputAuditInvalid);
    assert !InputCause(x, RemoteBuildInputMarkerHashMismatch) && !InputCause(x, PackagedBuildInputHashMismatch);
    hide InputCause, Readable, Installed, InputShown;
    KeysShown(x);
    assert MarkerInputs(x) == Get(Get(x.remote, "workspaceMarker"), "builtInputSha256");
    assert LiveInputs(x) == Get(x.remote, "remoteBuildInputs");
    hide Get, MarkerInputs, LiveInputs;
    forall p | p in x.tables.inputs
      ensures InputShown(x, p, Get(MarkerInputs(x), p), Get(LiveInputs(x), p), Get(FilesOf(x), p))
    {
      ProvenanceChain.LinksOfInput(x, p);
      OneInput(x, p);
    }
  }

  lemma KeysShown(x: Case)
    requires !InputCause(x, RemoteWorkspaceMarkerBuildInputsInvalid) && !InputCause(x, RemoteBuildInputAuditInvalid)
    ensures MarkerInputs(x).Obj? && LiveInputs(x).Obj?
    ensures MarkerInputs(x).fields.Keys == LiveInputs(x).fields.Keys == x.tables.inputs.Keys
  {
    hide MarkerInputs, LiveInputs, InputFaulty, ValidSha256;
  }

  lemma OneInput(x: Case, p: string)
    requires Readable(Installed(x)) && p in x.tables.inputs && !InputCause(x, PackagedBuildInputHashMismatch)
    requires ValidSha256(Get(MarkerInputs(x), p)) && GoodInput(x, p) && InputsCompared(x)
    requires Get(Get(LiveInputs(x), p), "sha256") == Get(MarkerInputs(x), p)
    ensures InputShown(x, p, Get(MarkerInputs(x), p), Get(LiveInputs(x), p), Get(FilesOf(x), p))
  {
    assert !InputFault(x, p, PackagedBuildInputHashMismatch) by {
      hide InputFault, InputsCompared, GoodInput, Get, MarkerInputs, LiveInputs, ValidSha256;
    }
    assert Manifest(x) == Installed(x) && Get(Manifest(x), "files") == FilesOf(x);
    assert Get(MarkerInputs(x), p).Str?;
    hide Get, MarkerInputs, LiveInputs, Manifest, Installed, FilesOf, Equal, PosixPath.Under, ValidSha256, Readable;
    ProvenanceChain.EqualToText(Get(Get(FilesOf(x), p), "sha256"), Get(MarkerInputs(x), p));
  }

  lemma NoInputCause(x: Case)
    requires Readable(Installed(x)) && InputFacts(x)
    ensures forall c :: !InputCause(x, c)
  {
    assert MarkerInputs(x) == Get(Get(x.remote, "workspaceMarker"), "builtInputSha256");
    assert LiveInputs(x) == Get(x.remote, "remoteBuildInputs");
    hide Readable, MarkerInputs, LiveInputs, Installed, InputFault, ValidSha256;
    forall p | p in x.tables.inputs ensures ValidSha256(Get(MarkerInputs(x), p)) && forall c :: !InputFault(x, p, c) {
      assert InputShown(x, p, Get(MarkerInputs(x), p), Get(LiveInputs(x), p), Get(FilesOf(x), p));
      InputClean(x, p);
    }
    hide InputShown, InputFacts;
    InputsTogether(x);
  }

  lemma InputClean(x: Case, p: string)
    requires Readable(Installed(x)) && p in x.tables.inputs
    requires InputShown(x, p, Get(MarkerInputs(x), p), Get(LiveInputs(x), p), Get(FilesOf(x), p))
    ensures ValidSha256(Get(MarkerInputs(x), p)) && forall c :: !InputFault(x, p, c)
  {
    assert Manifest(x) == Installed(x) && Get(Manifest(x), "files") == FilesOf(x);
    EqualRefl(Get(MarkerInputs(x), p));
    hide Get, MarkerInputs, LiveInputs, Manifest, Installed, FilesOf, Equal, PosixPath.Under, ValidSha256, Readable;
  }

  lemma InputsTogether(x: Case)
    requires MarkerInputs(x).Obj? && LiveInputs(x).Obj?
    requires MarkerInputs(x).fields.Keys == LiveInputs(x).fields.Keys == x.tables.inputs.Keys
    requires forall p :: p in x.tables.inputs ==>
               ValidSha256(Get(MarkerInputs(x), p)) && forall c :: !InputFault(x, p, c)
    ensures forall c :: !InputCause(x, c)
  {
    hide MarkerInputs, LiveInputs, ValidSha256, InputFault;
    assert MarkerInputsValid(x) by {
      forall p | p in MarkerInputs(x).fields ensures ValidSha256(MarkerInputs(x).fields[p]) {
        assert ValidSha256(Get(MarkerInputs(x), p));
      }
    }
    assert forall c :: !InputFaulty(x, c);
  }

  // ---- the service ----

  lemma UnitExact(x: Case)
    ensures (forall c :: !UnitCause(x, c)) <==> UnitFacts(x)
    ensures UnitFacts(x) ==> LaunchRead(x)
  {
    hide UnitCause, UnitFacts, LaunchRead;
    if forall c :: !UnitCause(x, c) { UnitShown(x); }
    if UnitFacts(x) { NoUnitCause(x); }
  }

  /** The same names for the same places. */
  lemma LaunchNames(x: Case)
    ensures Fragment(x) == UnitPath(x) && LaunchScript(x) == Script(x) && Launch(x) == LaunchDoc(x)
    ensures Unit(x) == Get(x.local, "trustedServiceUnit") && LaunchFiles(x) == Get(LaunchDoc(x), "files")
    ensures forall d :: DropInPath(x, d) == PathOf(x, d)
    ensures DropInList(x) == DropInDoc(x)
    ensures forall d :: DropInRecord(x, d)
                     == Obj(map["sizeBytes" := Int(|d.content|), "sha256" := Str(x.sha(d.content))])
  {
    hide Get;
    assert Fragment(x) == UnitPath(x);
    forall d ensures DropInPath(x, d) == PathOf(x, d) { hide Fragment, UnitPath; }
    hide PathOf, DropInPath;
    assert DropInList(x).items == DropInDoc(x).items;
  }

  lemma FileSetSame(x: Case, keys: set<string>)
    ensures keys == ExpectedFiles(x) <==>
              forall p :: p in keys <==> p == UnitPath(x) || exists d :: d in x.tables.dropins && p == PathOf(x, d)
  {
    LaunchNames(x);
    hide PathOf, UnitPath, DropInPath, Fragment;
    forall p
      ensures p in ExpectedFiles(x) <==> (p == UnitPath(x) || exists d :: d in x.tables.dropins && p == PathOf(x, d))
    {
    }
  }

  lemma UnitShown(x: Case)
    requires forall c :: !UnitCause(x, c)
    ensures UnitFacts(x)
  {
    hide UnitCause, Get, Readable, Equal, ValidSha256, Fragment, UnitPath, Launch, LaunchDoc, Unit, LaunchFiles,
      DropInPath, PathOf, DropInList, DropInDoc, DropInRecord, ExpectedFiles, Script, LaunchScript;
    LaunchReads(x);
    UnitParts(x);
    DropInParts(x);
    LaunchNames(x);
    FileSetSame(x, LaunchFiles(x).fields.Keys);
  }

  lemma LaunchReads(x: Case)
    requires forall c :: !UnitCause(x, c)
    ensures UnitUsable(x) && Readable(Launch(x)) && LaunchFiles(x).Obj?
  {
    hide Get, Readable, UnitUsable, Launch, LaunchFiles;
    assert !UnitCause(x, TrustedServiceUnitMissing);
    assert !UnitCause(x, ServiceLaunchAuditUnreadable);
    assert !UnitCause(x, ServiceLaunchFilesUnreadable);
  }

  lemma UnitParts(x: Case)
    requires LaunchRead(x) && forall c :: !UnitCause(x, c)
    ensures Get(Launch(x), "service") == Str(x.tables.service)
    ensures var f := Get(LaunchFiles(x), Fragment(x));
            f.Obj? && Equal(Get(f, "sizeBytes"), Get(Unit(x), "sizeBytes"))
              && Get(f, "sha256") == Get(Unit(x), "sha256")
  {
    hide Get, Readable, Equal, UnitUsable, Launch, LaunchFiles, Unit, Fragment;
    assert !UnitCause(x, ServiceLaunchNameMismatch);
    assert !UnitCause(x, ServiceUnitReceiptMismatch);
  }

  lemma DropInParts(x: Case)
    requires LaunchRead(x) && forall c :: !UnitCause(x, c)
    ensures Get(Launch(x), "dropInPaths") == DropInList(x)
    ensures forall d :: d in x.tables.dropins ==> Equal(Get(LaunchFiles(x), DropInPath(x, d)), DropInRecord(x, d))
    ensures LaunchFiles(x).fields.Keys == ExpectedFiles(x)
  {
    hide Get, Equal, UnitUsable, Readable, Launch, DropInList, DropInPath, DropInRecord, ExpectedFiles, Fragment;
    assert !UnitCause(x, ServiceDropinSetMismatch);
    assert !UnitCause(x, ServiceDropinContentMismatch);
    assert !UnitCause(x, ServiceLaunchFileSetMismatch);
  }

  lemma NoUnitCause(x: Case)
    requires UnitFacts(x)
    ensures LaunchRead(x) && forall c :: !UnitCause(x, c)
  {
    hide Get, Readable, Equal, ValidSha256, Fragment, UnitPath, Launch, LaunchDoc, Unit, LaunchFiles, DropInPath,
      PathOf,
      DropInList, DropInDoc, DropInRecord, ExpectedFiles, Script, LaunchScript;
    LaunchNames(x);
    FileSetSame(x, LaunchFiles(x).fields.Keys);
  }

  lemma ContainsSame(s: string, part: string)
    ensures Contains(s, part) <==> exists before, after :: s == before + part + after
  {
    if Contains(s, part) {
      var i :| 0 <= i <= |s| && part <= s[i..];
      assert s == s[..i] + part + s[i..][|part|..];
    }
    if before, after :| s == before + part + after {
      assert part <= s[|before|..];
    }
  }

  lemma ShowExact(x: Case)
    requires LaunchRead(x)
    ensures (forall c :: !ShowCause(x, c)) <==> ShowFacts(x)
  {
    hide ShowCause, ShowFacts, LaunchRead;
    if forall c :: !ShowCause(x, c) { ShowShown(x); }
    if ShowFacts(x) { NoShowCause(x); }
  }

  lemma ShowShown(x: Case)
    requires LaunchRead(x) && forall c :: !ShowCause(x, c)
    ensures ShowFacts(x)
  {
    hide ShowCause, Get, LaunchRead, Fragment, UnitPath, Launch, LaunchDoc, Script, LaunchScript, Contains;
    ShowParts(x);
    LaunchNames(x);
    ContainsSame(Get(Get(Launch(x), "show"), "ExecStart").s, Script(x));
  }

  lemma ShowParts(x: Case)
    requires LaunchRead(x) && forall c :: !ShowCause(x, c)
    ensures var show := Get(Launch(x), "show");
            && show.Obj? && Get(show, "FragmentPath") == Str(Fragment(x))
            && Get(show, "WorkingDirectory") == Str(x.root + "/current")
            && Get(show, "ExecStart").Str? && Contains(Get(show, "ExecStart").s, LaunchScript(x))
  {
    hide Get, LaunchRead, Fragment, Launch, LaunchScript, Contains;
    assert !ShowCause(x, ServiceEffectivePropertiesUnreadable);
    assert !ShowCause(x, ServiceFragmentPathMismatch);
    assert !ShowCause(x, ServiceWorkingDirectoryMismatch);
    assert !ShowCause(x, ServiceExecStartMismatch);
  }

  lemma NoShowCause(x: Case)
    requires ShowFacts(x)
    ensures forall c :: !ShowCause(x, c)
  {
    hide Get, LaunchRead, Fragment, UnitPath, Launch, LaunchDoc, Script, LaunchScript, Contains;
    LaunchNames(x);
    ContainsSame(Get(Get(Launch(x), "show"), "ExecStart").s, Script(x));
  }

  // ---- the processes ----

  lemma {:induction false} CountNone(rs: seq<Json>, p: Json -> bool)
    ensures Count(rs, p) == 0 <==> forall i :: 0 <= i < |rs| ==> !p(rs[i])
    decreases |rs|
  {
    if rs != [] {
      CountNone(rs[..|rs| - 1], p);
    }
  }

  lemma {:induction false} CountOne(rs: seq<Json>, p: Json -> bool)
    ensures Count(rs, p) == 1 <==> ExactlyOne(rs, p)
    decreases |rs|
  {
    if rs != [] {
      var n := |rs| - 1;
      var front := rs[..n];
      CountNone(front, p);
      CountOne(front, p);
      hide Only;
      if p(rs[n]) {
        OnlyLast(rs, p);
      } else {
        forall i ensures Only(rs, p, i) <==> Only(front, p, i) { OnlyFront(rs, p, i); }
      }
    }
  }

  lemma OnlyLast(rs: seq<Json>, p: Json -> bool)
    requires rs != [] && p(rs[|rs| - 1])
    ensures var front := rs[..|rs| - 1]; ExactlyOne(rs, p) <==> forall i :: 0 <= i < |front| ==> !p(front[i])
  {
    var n, front := |rs| - 1, rs[..|rs| - 1];
    if i :| Only(rs, p, i) {
      assert i == n;
    }
    if forall i :: 0 <= i < n ==> !p(front[i]) {
      forall k | 0 <= k < |rs| && k != n ensures !p(rs[k]) { assert front[k] == rs[k]; }
      assert Only(rs, p, n);
    }
  }

  lemma OnlyFront(rs: seq<Json>, p: Json -> bool, i: int)
    requires rs != [] && !p(rs[|rs| - 1])
    ensures Only(rs, p, i) <==> Only(rs[..|rs| - 1], p, i)
  {
    var n := |rs| - 1;
    var front := rs[..n];
    assert forall k :: 0 <= k < n ==> front[k] == rs[k];
    if Only(front, p, i) {
      forall k | 0 <= k < |rs| && k != i ensures !p(rs[k]) {
        if k < n { assert !p(front[k]); }
      }
    }
  }

  lemma ProcessExact(x: Case)
    requires LaunchRead(x)
    ensures (forall c :: !ProcessCause(x, c)) <==> ProcessFacts(x)
  {
    hide ProcessCause, ProcessFacts, LaunchRead;
    TreeExact(x);
    TreeIsFacts(x);
  }

  lemma ProcessNames(x: Case)
    ensures var pointer := Text(Get(x.remote, "installedReleasePointer"), x.repr);
            Obc(x) == pointer + "/bin/OBC" && Radio(x) == pointer + "/bin/radio_mock_server"
    ensures Processes(x) == Get(LaunchDoc(x), "processTree") && LaunchScript(x) == Script(x)
    ensures RadioHash(x) == Get(Get(FilesOf(x), "bin/radio_mock_server"), "sha256")
  {
    hide Get, Text;
  }

  /** One process record, with the names of the check. */
  predicate RecordShown(x: Case, r: Json) {
    && ProcessShown(r) && Get(r, "executable").s in {Obc(x), Radio(x), "/usr/bin/bash", "/bin/bash"}
    && (Get(r, "executable").s == Obc(x) ==> Get(r, "executableSha256") == Get(x.remote, "installedObcSha256"))
    && (Get(r, "executable").s == Radio(x) ==> Get(r, "executableSha256") == RadioHash(x))
  }

  lemma RecordExact(x: Case, r: Json)
    ensures RecordShown(x, r) <==> forall c :: !ProcessFault(x, r, c)
  {
    hide Get, ValidSha256, Obc, Radio, RadioHash;
    if forall c :: !ProcessFault(x, r, c) {
      assert !ProcessFault(x, r, ServiceProcessTreeUnreadable);
      assert !ProcessFault(x, r, ServiceProcessExecutableUnexpected);
      assert !ProcessFault(x, r, ServiceProcessObcHashMismatch);
      assert !ProcessFault(x, r, ServiceProcessRadioHashMismatch);
    }
  }

  /** The facts about the processes, with the names of the check. */
  ghost predicate TreeShown(x: Case) {
    var tree := Processes(x);
    && tree.Arr? && (forall r :: r in tree.items ==> RecordShown(x, r))
    && ExactlyOne(tree.items, r => Launches(r, LaunchScript(x)))
    && ExactlyOne(tree.items, r => Runs(r, Obc(x))) && ExactlyOne(tree.items, r => Runs(r, Radio(x)))
  }

  lemma TreeIsFacts(x: Case)
    ensures TreeShown(x) <==> ProcessFacts(x)
  {
    hide Get, Text, ProcessShown, Obc, Radio, RadioHash, Processes, LaunchDoc, FilesOf, Script, LaunchScript,
      ExactlyOne,
      Launches, Runs;
    ProcessNames(x);
  }

  lemma TreeExact(x: Case)
    requires LaunchRead(x)
    ensures (forall c :: !ProcessCause(x, c)) <==> TreeShown(x)
  {
    hide ProcessCause, TreeShown, LaunchRead;
    if forall c :: !ProcessCause(x, c) { TreeFrom(x); }
    if TreeShown(x) { NoProcessCause(x); }
  }

  lemma TreeFrom(x: Case)
    requires LaunchRead(x) && forall c :: !ProcessCause(x, c)
    ensures TreeShown(x)
  {
    hide LaunchRead, Processes, Obc, Radio, LaunchScript, Launches, Runs, RecordShown, ProcessFault, ExactlyOne, Count,
      ProcessCause;
    TreeThere(x);
    forall r | r in Processes(x).items ensures RecordShown(x, r) {
      forall c ensures !ProcessFault(x, r, c) { FaultIsCause(x, r, c); }
      RecordExact(x, r);
    }
    CountOne(Processes(x).items, r => Launches(r, LaunchScript(x)));
    CountOne(Processes(x).items, r => Runs(r, Obc(x)));
    CountOne(Processes(x).items, r => Runs(r, Radio(x)));
  }

  lemma TreeThere(x: Case)
    requires LaunchRead(x) && forall c :: !ProcessCause(x, c)
    ensures Processes(x).Arr?
    ensures Count(Processes(x).items, r => Launches(r, LaunchScript(x))) == 1
    ensures Count(Processes(x).items, r => Runs(r, Obc(x))) == 1
    ensures Count(Processes(x).items, r => Runs(r, Radio(x))) == 1
  {
    hide LaunchRead, Processes, Obc, Radio, LaunchScript, Launches, Runs, Count, ProcessFaulty;
    assert !ProcessCause(x, ServiceProcessTreeMissing);
    assert !ProcessCause(x, ServiceLauncherProcessMismatch);
    assert !ProcessCause(x, ServiceObcProcessMismatch);
    assert !ProcessCause(x, ServiceRadioProcessMismatch);
  }

  lemma NoProcessCause(x: Case)
    requires LaunchRead(x) && TreeShown(x)
    ensures forall c :: !ProcessCause(x, c)
  {
    hide LaunchRead, Processes, Obc, Radio, LaunchScript, Launches, Runs, RecordShown, ProcessFault, Count, Only;
    var items := Processes(x).items;
    CountOne(items, r => Launches(r, LaunchScript(x)));
    CountOne(items, r => Runs(r, Obc(x)));
    CountOne(items, r => Runs(r, Radio(x)));
    NotEmpty(items, r => Runs(r, Obc(x)));
    hide ExactlyOne;
    NoFaults(x);
  }

  lemma NotEmpty(rs: seq<Json>, p: Json -> bool)
    requires Count(rs, p) == 1
    ensures rs != []
  {
  }

  lemma NoFaults(x: Case)
    requires Processes(x).Arr? && forall r :: r in Processes(x).items ==> RecordShown(x, r)
    ensures forall c :: !ProcessFaulty(x, Processes(x).items, c)
  {
    hide Processes, RecordShown, ProcessFault;
    forall r | r in Processes(x).items ensures forall c :: !ProcessFault(x, r, c) { RecordExact(x, r); }
  }

  lemma FaultIsCause(x: Case, r: Json, c: Code)
    requires LaunchRead(x) && Processes(x).Arr? && r in Processes(x).items && !ProcessCause(x, c)
    ensures !ProcessFault(x, r, c)
  {
    hide LaunchRead, Processes, Obc, Radio, LaunchScript, Launches, Runs, Count, GoodProcess, ExpectedProcess,
      RadioHash;
    assert ProcessFault(x, r, c) ==> ProcessFaulty(x, Processes(x).items, c);
  }

  // ---- all together ----

  lemma AcceptedGroups(x: Case, order: seq<string>)
    ensures Accepted(x, order) <==>
              && (forall c :: !LocalCause(x, c)) && (forall c :: !MarkerCause(x, c))
              && (forall c :: !ContentCause(x, c))
              && (forall c :: !BuildCause(x, c)) && (forall c :: !ManifestCause(x, c))
              && (forall c :: !FileCause(x, order, c)) && (forall c :: !ReleaseCause(x, c))
              && (forall c :: !InputCause(x, c)) && (forall c :: !ServiceCause(x, c))
  {
    hide LocalCause, MarkerCause, ContentCause, BuildCause, ManifestCause, FileCause, ReleaseCause, InputCause,
      ServiceCause, Captured, Accepted;
    if Accepted(x, order) {
      forall c ensures !LocalCause(x, c) && !MarkerCause(x, c) && !ContentCause(x, c) && !BuildCause(x, c)
                       && !ManifestCause(x, c) && !FileCause(x, order, c) && !ReleaseCause(x, c) && !InputCause(x, c)
                       && !ServiceCause(x, c)
      {
        ProvenanceChain.NoCause(x, order, c);
      }
    } else {
      NotAccepted(x, order);
    }
  }

  lemma NotAccepted(x: Case, order: seq<string>)
    requires !Accepted(x, order)
    ensures exists c :: LocalCause(x, c) || MarkerCause(x, c) || ContentCause(x, c) || BuildCause(x, c)
                        || ManifestCause(x, c) || FileCause(x, order, c) || ReleaseCause(x, c) || InputCause(x, c)
                        || ServiceCause(x, c)
  {
    hide LocalCause, MarkerCause, ContentCause, BuildCause, ManifestCause, FileCause, ReleaseCause, InputCause,
      ServiceCause, Captured;
    var c :| Cause(x, order, c);
  }

  lemma ServiceExact(x: Case)
    ensures (forall c :: !ServiceCause(x, c)) <==> UnitFacts(x) && ShowFacts(x) && ProcessFacts(x)
  {
    UnitExact(x);
    hide UnitCause, ShowCause, ProcessCause, UnitFacts, ShowFacts, ProcessFacts, LaunchRead;
    if LaunchRead(x) {
      ShowExact(x);
      ProcessExact(x);
    }
    ServiceGroups(x);
  }

  lemma ServiceGroups(x: Case)
    ensures (forall c :: !ServiceCause(x, c)) <==>
              (forall c :: !UnitCause(x, c)) && (forall c :: !ShowCause(x, c)) && forall c :: !ProcessCause(x, c)
  {
    hide UnitCause, ShowCause, ProcessCause;
    if forall c :: !ServiceCause(x, c) {
      forall c ensures !UnitCause(x, c) && !ShowCause(x, c) && !ProcessCause(x, c) { assert !ServiceCause(x, c); }
    }
  }

  /** The check accepts exactly when the documents show all the facts, whatever the order of the file records. */
  lemma AcceptedExactly(x: Case, order: seq<string>)
    requires FileOrder(x, order)
    ensures Accepted(x, order) <==> Facts(x)
  {
    hide *;
    AcceptedGroups(x, order);
    LocalExact(x);
    MarkerExact(x);
    ContentExact(x);
    BuildExact(x);
    ManifestExact(x);
    ServiceExact(x);
    if ManifestFacts(x) {
      ManifestThere(x);
      FileExact(x, order);
      ReleaseExact(x);
      InputExact(x);
    }
    FactsAre(x);
  }

  lemma ManifestThere(x: Case)
    requires ManifestFacts(x)
    ensures Readable(Installed(x))
  {
    hide Readable, Get, Equal;
  }

  lemma FactsAre(x: Case)
    ensures Facts(x) <==>
              && LocalFacts(x) && MarkerFacts(x) && ContentFacts(x) && BuildFacts(x) && ManifestFacts(x) && FileFacts(x)
              && ReleaseFacts(x) && InputFacts(x) && UnitFacts(x) && ShowFacts(x) && ProcessFacts(x)
  {
    hide LocalFacts, MarkerFacts, ContentFacts, BuildFacts, ManifestFacts, FileFacts, ReleaseFacts, InputFacts,
      UnitFacts,
      ShowFacts, ProcessFacts;
  }
}
