/** What the check says of an accepted pair of documents in which one field is altered: exactly one failure, the
  * one named after the field, unless the new value is as good as the old one. */
module ProvenanceAltered {
  import opened Json
  import opened Provenance
  import opened ProvenanceFacts
  import PosixPath

  function Put(j: Json, key: string, v: Json): Json
    requires j.Obj?
  {
    Obj(j.fields[key := v])
  }

  lemma GetPut(j: Json, key: string, v: Json)
    requires j.Obj?
    ensures Get(Put(j, key, v), key) == v && forall k :: k != key ==> Get(Put(j, key, v), k) == Get(j, k)
  {
  }

  function WithRemote(x: Case, key: string, v: Json): Case
    requires x.remote.Obj?
  {
    x.(remote := Put(x.remote, key, v))
  }

  /** The same check but for one top field of the remote document. */
  ghost predicate SameBut(x: Case, y: Case, key: string) {
    && y.local == x.local && y.workspace == x.workspace && y.root == x.root && y.tables == x.tables && y.sha == x.sha
    && y.repr == x.repr && forall k :: k != key ==> Get(y.remote, k) == Get(x.remote, k)
  }

  lemma RemoteSame(x: Case, key: string, v: Json)
    requires x.remote.Obj?
    ensures SameBut(x, WithRemote(x, key, v), key) && Get(WithRemote(x, key, v).remote, key) == v
  {
    hide Get;
    GetPut(x.remote, key, v);
    hide Put;
  }

  // ---- what each group of facts rests on ----

  const BUILD_KEYS := {"workspaceGitHead", "workspaceGitError", "remoteBuildMetadata", "installedBuildMetadata"}
  const MANIFEST_KEYS := {"installedManifest", "installedManifestSha256"}
  const FILE_KEYS := {"installedManifest", "installedManifestSha256", "installedManifestFileAudit"}
  const RELEASE_KEYS := {"installedManifest", "installedReleasePointer", "installedObcPath", "installedObcSha256"}
  const INPUT_KEYS := {"installedManifest", "remoteBuildInputs"}
  const PROCESS_KEYS := {"installedManifest", "installedReleasePointer", "installedObcSha256"}

  /** A field nothing installed, built or launched rests on. */
  predicate Aside(key: string) {
    && key !in MANIFEST_KEYS && key !in FILE_KEYS && key !in RELEASE_KEYS && key !in INPUT_KEYS && key !in PROCESS_KEYS
    && key != "captureError" && key != "workspaceTrackedContent"
  }

  lemma LocalSame(x: Case, y: Case, key: string)
    requires SameBut(x, y, key) && key != "captureError"
    ensures LocalFacts(y) <==> LocalFacts(x)
  {
    assert Named(y) == Named(x) by { hide Get, Text; }
    hide Get, Named, Truthy, HexDigit;
  }

  lemma NamedSame(x: Case, y: Case, key: string)
    requires SameBut(x, y, key)
    ensures Named(y) == Named(x)
  {
    hide Get, Text;
  }

  lemma MarkerSame(x: Case, y: Case, key: string)
    requires SameBut(x, y, key) && key != "workspaceMarker"
    ensures MarkerFacts(y) <==> MarkerFacts(x)
  {
    NamedSame(x, y, key);
    hide Get, Named, Readable, Number, NumberOf;
  }

  lemma ContentSame(x: Case, y: Case, key: string)
    requires SameBut(x, y, key) && key != "workspaceTrackedContent"
    requires Get(Get(y.remote, "workspaceMarker"), "trackedContent")
             == Get(Get(x.remote, "workspaceMarker"), "trackedContent")
    ensures ContentFacts(y) <==> ContentFacts(x)
  {
    hide Get, OneContent;
  }

  lemma BuildSame(x: Case, y: Case, key: string)
    requires SameBut(x, y, key)
    requires key !in BUILD_KEYS
    ensures BuildFacts(y) <==> BuildFacts(x)
  {
    NamedSame(x, y, key);
    hide Get, Named, Readable, Truthy;
  }

  lemma ManifestSame(x: Case, y: Case, key: string)
    requires SameBut(x, y, key) && key !in MANIFEST_KEYS
    ensures ManifestFacts(y) <==> ManifestFacts(x)
  {
    NamedSame(x, y, key);
    hide Get, Named, Readable, Equal, ValidSha256;
  }

  lemma FilesSame(x: Case, y: Case, key: string)
    requires SameBut(x, y, key)
    requires key !in FILE_KEYS
    ensures (FileFacts(y) <==> FileFacts(x)) && FilesOf(y) == FilesOf(x)
    ensures forall order :: FileOrder(x, order) ==> FileOrder(y, order)
  {
    assert FilesOf(y) == FilesOf(x) && AuditOf(y) == AuditOf(x) && Files(y) == Files(x) by { hide Get; }
    hide Get, Readable, ValidSha256, FileShown, FilesOf, AuditOf, Files;
  }

  lemma ReleaseSame(x: Case, y: Case, key: string)
    requires SameBut(x, y, key)
    requires key !in RELEASE_KEYS
    ensures ReleaseFacts(y) <==> ReleaseFacts(x)
  {
    assert FilesOf(y) == FilesOf(x) && Get(y.remote, "installedManifest") == Get(x.remote, "installedManifest") by {
      hide Get;
    }
    assert Get(y.remote, "installedReleasePointer") == Get(x.remote, "installedReleasePointer");
    assert Get(y.remote, "installedObcPath") == Get(x.remote, "installedObcPath");
    assert Get(y.remote, "installedObcSha256") == Get(x.remote, "installedObcSha256");
    assert y.root == x.root && y.repr == x.repr;
    hide Get, Text, FilesOf, SameBut, PosixPath.Under;
  }

  lemma InputsSame(x: Case, y: Case, key: string)
    requires SameBut(x, y, key) && key !in INPUT_KEYS
    requires Get(Get(y.remote, "workspaceMarker"), "builtInputSha256")
             == Get(Get(x.remote, "workspaceMarker"), "builtInputSha256")
    ensures InputFacts(y) <==> InputFacts(x)
  {
    assert FilesOf(y) == FilesOf(x) by { hide Get; }
    forall p, h, l, f | p in x.tables.inputs ensures InputShown(y, p, h, l, f) <==> InputShown(x, p, h, l, f) {
      hide Get, ValidSha256;
    }
    hide Get, FilesOf, InputShown;
  }

  /** The parts of the launch audit. */
  ghost predicate LaunchSame(x: Case, y: Case, keys: set<string>) {
    && (Readable(LaunchDoc(y)) <==> Readable(LaunchDoc(x)))
    && forall k :: k in keys ==> Get(LaunchDoc(y), k) == Get(LaunchDoc(x), k)
  }

  lemma UnitSame(x: Case, y: Case, key: string)
    requires SameBut(x, y, key) && LaunchSame(x, y, {"service", "files", "dropInPaths"})
    ensures UnitFacts(y) <==> UnitFacts(x)
  {
    assert UnitPath(y) == UnitPath(x) && forall d :: PathOf(y, d) == PathOf(x, d);
    assert Get(LaunchDoc(y), "service") == Get(LaunchDoc(x), "service");
    assert Get(LaunchDoc(y), "files") == Get(LaunchDoc(x), "files");
    assert Get(LaunchDoc(y), "dropInPaths") == Get(LaunchDoc(x), "dropInPaths");
    assert x.tables == y.tables && x.sha == y.sha && x.local == y.local;
    PathsSame(x, y);
    hide Get, Readable, Equal, ValidSha256, UnitPath, PathOf, LaunchDoc, SameBut, DropInDoc;
  }

  lemma PathsSame(x: Case, y: Case)
    requires y.tables == x.tables
    ensures DropInDoc(y) == DropInDoc(x)
  {
    assert forall d :: PathOf(y, d) == PathOf(x, d);
    hide PathOf;
    assert DropInDoc(y).items == DropInDoc(x).items;
  }

  lemma ShowSame(x: Case, y: Case, key: string)
    requires SameBut(x, y, key) && LaunchSame(x, y, {"show"})
    ensures ShowFacts(y) <==> ShowFacts(x)
  {
    assert UnitPath(y) == UnitPath(x) && Script(y) == Script(x) && y.root == x.root;
    assert Get(LaunchDoc(y), "show") == Get(LaunchDoc(x), "show");
    hide Get, Readable, UnitPath, Script, LaunchDoc, SameBut, LaunchSame;
  }

  lemma ProcessSame(x: Case, y: Case, key: string)
    requires SameBut(x, y, key) && LaunchSame(x, y, {"processTree"})
    requires key !in PROCESS_KEYS
    ensures ProcessFacts(y) <==> ProcessFacts(x)
  {
    assert FilesOf(y) == FilesOf(x) && Script(y) == Script(x) by { hide Get; }
    assert Get(LaunchDoc(y), "processTree") == Get(LaunchDoc(x), "processTree");
    assert Get(y.remote, "installedReleasePointer") == Get(x.remote, "installedReleasePointer");
    assert Get(y.remote, "installedObcSha256") == Get(x.remote, "installedObcSha256") && y.repr == x.repr;
    hide Get, Text, FilesOf, Script, LaunchDoc, SameBut, LaunchSame, ProcessShown, ExactlyOne, Launches, Runs;
  }

  // ---- one failure ----

  /** The check of y reports just this failure, or none. */
  ghost predicate Reports(y: Case, order: seq<string>, code: Code, wrong: bool) {
    forall c {:trigger Cause(y, order, c)} :: Cause(y, order, c) <==> c == code && wrong
  }

  /** An accepted check shows all the facts; its parts one by one. */
  lemma Shown(x: Case, order: seq<string>)
    requires FileOrder(x, order) && Accepted(x, order)
    ensures LocalFacts(x) && MarkerFacts(x) && ContentFacts(x) && BuildFacts(x) && ManifestFacts(x) && FileFacts(x)
            && ReleaseFacts(x) && InputFacts(x) && UnitFacts(x) && ShowFacts(x) && ProcessFacts(x)
  {
    hide *;
    AcceptedExactly(x, order);
    FactsAre(x);
  }

  lemma NoneCaused(y: Case, order: seq<string>)
    requires FileOrder(y, order)
    ensures LocalFacts(y) ==> Captured(y) && forall c :: !LocalCause(y, c)
    ensures MarkerFacts(y) ==> forall c :: !MarkerCause(y, c)
    ensures ContentFacts(y) ==> forall c :: !ContentCause(y, c)
    ensures BuildFacts(y) ==> forall c :: !BuildCause(y, c)
    ensures ManifestFacts(y) ==> forall c :: !ManifestCause(y, c)
    ensures ManifestFacts(y) && FileFacts(y) ==> forall c :: !FileCause(y, order, c)
    ensures ManifestFacts(y) && ReleaseFacts(y) ==> forall c :: !ReleaseCause(y, c)
    ensures ManifestFacts(y) && InputFacts(y) ==> forall c :: !InputCause(y, c)
    ensures UnitFacts(y) ==> LaunchRead(y) && forall c :: !UnitCause(y, c)
    ensures LaunchRead(y) && ShowFacts(y) ==> forall c :: !ShowCause(y, c)
    ensures LaunchRead(y) && ProcessFacts(y) ==> forall c :: !ProcessCause(y, c)
  {
    hide *;
    LocalExact(y);
    if LocalFacts(y) { CapturedThen(y); }
    MarkerExact(y);
    ContentExact(y);
    BuildExact(y);
    ManifestExact(y);
    if ManifestFacts(y) {
      ManifestThere(y);
      FileExact(y, order);
      ReleaseExact(y);
      InputExact(y);
    }
    UnitExact(y);
    if LaunchRead(y) {
      ShowExact(y);
      ProcessExact(y);
    }
  }

  lemma CapturedThen(y: Case)
    requires LocalFacts(y)
    ensures Captured(y)
  {
    hide Named, HexDigit, Get, Truthy;
  }

  datatype Group = OfMarker | OfBuild | OfUnit | OfShow

  ghost predicate GroupCause(y: Case, group: Group, c: Code) {
    match group
    case OfMarker => MarkerCause(y, c)
    case OfBuild => BuildCause(y, c)
    case OfUnit => UnitCause(y, c)
    case OfShow => ShowCause(y, c)
  }

  /** Where all the other groups are quiet, the failures are those of one. */
  lemma OneGroup(y: Case, order: seq<string>, group: Group)
    requires Captured(y) && (forall c :: !LocalCause(y, c)) && (forall c :: !ContentCause(y, c))
    requires (forall c :: !ManifestCause(y, c)) && (forall c :: !FileCause(y, order, c))
    requires (forall c :: !ReleaseCause(y, c)) && (forall c :: !InputCause(y, c)) && (forall c :: !ProcessCause(y, c))
    requires group.OfMarker? || forall c :: !MarkerCause(y, c)
    requires group.OfBuild? || forall c :: !BuildCause(y, c)
    requires group.OfUnit? || forall c :: !UnitCause(y, c)
    requires group.OfShow? || forall c :: !ShowCause(y, c)
    ensures forall c :: Cause(y, order, c) <==> GroupCause(y, group, c)
  {
    hide LocalCause, MarkerCause, ContentCause, BuildCause, ManifestCause, FileCause, ReleaseCause, InputCause,
      UnitCause, ShowCause, ProcessCause, Captured;
  }

  // ---- the workspace marker ----

  datatype MarkerField = SchemaField | BranchField | HeadField | VersionField

  function MarkerKey(f: MarkerField): string {
    match f
    case SchemaField => "schemaVersion"
    case BranchField => "branch"
    case HeadField => "head"
    case VersionField => "projectVersion"
  }

  function MarkerCode(f: MarkerField): Code {
    match f
    case SchemaField => RemoteWorkspaceMarkerSchemaMismatch
    case BranchField => RemoteWorkspaceBranchMismatch
    case HeadField => RemoteWorkspaceHeadMismatch
    case VersionField => RemoteWorkspaceVersionMismatch
  }

  function MarkerOf(x: Case): Json { Get(x.remote, "workspaceMarker") }

  /** As good as what is there: any number equal to 3 for the schema, otherwise the same text. */
  predicate MarkerGood(x: Case, f: MarkerField, v: Json) {
    if f.SchemaField? then Number(v) && NumberOf(v) == 3.0 else v == Get(MarkerOf(x), MarkerKey(f))
  }

  function WithMarker(x: Case, f: MarkerField, v: Json): Case
    requires x.remote.Obj? && MarkerOf(x).Obj?
  {
    WithRemote(x, "workspaceMarker", Put(MarkerOf(x), MarkerKey(f), v))
  }

  lemma MarkerPut(m: Json, f: MarkerField, v: Json)
    requires m.Obj?
    ensures var n := Put(m, MarkerKey(f), v);
            && Get(n, MarkerKey(f)) == v
            && (forall g: MarkerField :: g != f ==> Get(n, MarkerKey(g)) == Get(m, MarkerKey(g)))
            && Get(n, "trackedContent") == Get(m, "trackedContent")
            && Get(n, "builtInputSha256") == Get(m, "builtInputSha256") && (Readable(n) <==> Readable(m))
  {
    GetPut(m, MarkerKey(f), v);
    assert MarkerKey(f)[0] in {'s', 'b', 'h', 'p'} && "trackedContent"[0] == 't' && "_readError"[0] == '_';
    assert |MarkerKey(f)| != |"builtInputSha256"|;
    hide Get, Put;
    forall g: MarkerField | g != f ensures MarkerKey(g) != MarkerKey(f) {
      assert |"schemaVersion"| == 13 && |"branch"| == 6 && |"head"| == 4 && |"projectVersion"| == 14;
    }
  }

  lemma MarkerObjects(x: Case)
    requires MarkerFacts(x)
    ensures x.remote.Obj? && MarkerOf(x).Obj? && Readable(MarkerOf(x))
  {
  }

  /** Altering the schema, branch, head or version of an accepted marker is refused with exactly its own failure. */
  lemma MarkerAltered(x: Case, order: seq<string>, f: MarkerField, v: Json)
    requires FileOrder(x, order) && Accepted(x, order)
    ensures x.remote.Obj? && MarkerOf(x).Obj?
    ensures Reports(WithMarker(x, f, v), order, MarkerCode(f), !MarkerGood(x, f, v))
  {
    hide *;
    Shown(x, order);
    MarkerObjects(x);
    var y := WithMarker(x, f, v);
    MarkerChanged(x, f, v);
    MarkerElsewhere(x, y);
    NoneCaused(y, order);
    OneGroup(y, order, OfMarker);
    MarkerOnly(x, y, f, v);
    ReportsGroup(y, order, OfMarker, MarkerCode(f), !MarkerGood(x, f, v));
  }

  lemma ReportsGroup(y: Case, order: seq<string>, group: Group, code: Code, wrong: bool)
    requires forall c :: Cause(y, order, c) <==> GroupCause(y, group, c)
    requires forall c :: GroupCause(y, group, c) <==> c == code && wrong
    ensures Reports(y, order, code, wrong)
  {
    hide Cause, GroupCause;
  }

  /** The altered case, by its parts. */
  ghost predicate MarkerDiffers(x: Case, y: Case, f: MarkerField, v: Json) {
    var m, n := MarkerOf(x), MarkerOf(y);
    && SameBut(x, y, "workspaceMarker") && Get(n, MarkerKey(f)) == v
    && (forall g: MarkerField :: g != f ==> Get(n, MarkerKey(g)) == Get(m, MarkerKey(g)))
    && Get(n, "trackedContent") == Get(m, "trackedContent") && Get(n, "builtInputSha256") == Get(m, "builtInputSha256")
    && (Readable(n) <==> Readable(m))
  }

  lemma MarkerChanged(x: Case, f: MarkerField, v: Json)
    requires x.remote.Obj? && MarkerOf(x).Obj?
    ensures MarkerDiffers(x, WithMarker(x, f, v), f, v)
    ensures MarkerRest(x, WithMarker(x, f, v))
  {
    hide Get, Put, Readable, SameBut;
    var n := Put(MarkerOf(x), MarkerKey(f), v);
    MarkerPut(MarkerOf(x), f, v);
    RemoteSame(x, "workspaceMarker", n);
  }

  ghost predicate MarkerRest(x: Case, y: Case) {
    && SameBut(x, y, "workspaceMarker") && Get(MarkerOf(y), "trackedContent") == Get(MarkerOf(x), "trackedContent")
    && Get(MarkerOf(y), "builtInputSha256") == Get(MarkerOf(x), "builtInputSha256")
  }

  lemma MarkerElsewhere(x: Case, y: Case)
    requires MarkerRest(x, y)
    requires LocalFacts(x) && ContentFacts(x) && BuildFacts(x) && ManifestFacts(x) && FileFacts(x) && ReleaseFacts(x)
             && InputFacts(x) && UnitFacts(x) && ShowFacts(x) && ProcessFacts(x)
    ensures forall order :: FileOrder(x, order) ==> FileOrder(y, order)
    ensures LocalFacts(y) && ContentFacts(y) && BuildFacts(y) && ManifestFacts(y) && FileFacts(y) && ReleaseFacts(y)
            && InputFacts(y) && UnitFacts(y) && ShowFacts(y) && ProcessFacts(y)
  {
    hide *;
    MarkerKeyApart();
    MarkerRestIs(x, y);
    LaunchUnchanged(x, y, "workspaceMarker");
    InstalledSame(x, y, "workspaceMarker");
    ContentSame(x, y, "workspaceMarker");
    BuildSame(x, y, "workspaceMarker");
    InputsSame(x, y, "workspaceMarker");
    UnitSame(x, y, "workspaceMarker");
    ShowSame(x, y, "workspaceMarker");
    ProcessThere(x, y, "workspaceMarker");
  }

  lemma MarkerRestIs(x: Case, y: Case)
    requires MarkerRest(x, y)
    ensures SameBut(x, y, "workspaceMarker")
    ensures Get(Get(y.remote, "workspaceMarker"), "trackedContent")
            == Get(Get(x.remote, "workspaceMarker"), "trackedContent")
    ensures Get(Get(y.remote, "workspaceMarker"), "builtInputSha256")
         == Get(Get(x.remote, "workspaceMarker"), "builtInputSha256")
  {
    hide SameBut, Get;
  }

  /** The groups that rest on the installed release alone. */
  lemma InstalledSame(x: Case, y: Case, key: string)
    requires SameBut(x, y, key) && Aside(key)
    requires LocalFacts(x) && ManifestFacts(x) && FileFacts(x) && ReleaseFacts(x)
    ensures LocalFacts(y) && ManifestFacts(y) && FileFacts(y) && ReleaseFacts(y)
    ensures forall order :: FileOrder(x, order) ==> FileOrder(y, order)
    ensures key !in INPUT_KEYS && key != "workspaceTrackedContent"
  {
    assert key != "captureError" && key !in MANIFEST_KEYS && key !in FILE_KEYS && key !in RELEASE_KEYS
           && key !in INPUT_KEYS && key != "workspaceTrackedContent";
    hide *;
    LocalSame(x, y, key);
    ManifestSame(x, y, key);
    FilesSame(x, y, key);
    ReleaseSame(x, y, key);
  }

  lemma ProcessThere(x: Case, y: Case, key: string)
    requires SameBut(x, y, key) && Aside(key) && LaunchSame(x, y, {"processTree"}) && ProcessFacts(x)
    ensures ProcessFacts(y)
  {
    assert key !in PROCESS_KEYS;
    hide *;
    ProcessSame(x, y, key);
  }

  lemma MarkerKeyApart()
    ensures Aside("workspaceMarker") && "workspaceMarker" !in BUILD_KEYS && "workspaceMarker" != "serviceLaunchAudit"
  {
    assert |"workspaceMarker"| == 15 && |"remoteBuildInputs"| == 17 && |"installedObcPath"| == 16;
    assert |"installedManifest"| == 17 && |"workspaceGitHead"| == 16;
  }

  lemma LaunchUnchanged(x: Case, y: Case, key: string)
    requires SameBut(x, y, key) && key != "serviceLaunchAudit"
    ensures forall keys :: LaunchSame(x, y, keys)
  {
    hide Get, Readable;
    assert LaunchDoc(y) == LaunchDoc(x);
  }

  lemma MarkerOnly(x: Case, y: Case, f: MarkerField, v: Json)
    requires MarkerFacts(x) && MarkerDiffers(x, y, f, v)
    ensures forall c :: GroupCause(y, OfMarker, c) <==> c == MarkerCode(f) && !MarkerGood(x, f, v)
  {
    NamedSame(x, y, "workspaceMarker");
    MarkerParts(x);
    MarkerValues(x, y, f, v);
    MarkerCauses(y);
    hide Get, Readable, Number, NumberOf, SameBut, MarkerFacts, MarkerCause, MarkerOf, Named;
  }

  /** The marker's failures, one by one. */
  lemma MarkerCauses(y: Case)
    requires Readable(MarkerOf(y))
    ensures forall f: MarkerField :: MarkerCause(y, MarkerCode(f)) <==> !FieldRight(MarkerOf(y), Named(y), f)
    ensures forall c :: (forall f: MarkerField :: c != MarkerCode(f)) ==> !MarkerCause(y, c)
  {
    hide MarkerCause, FieldRight, MarkerOf, Named, Readable, MarkerCode;
    forall f: MarkerField ensures MarkerCause(y, MarkerCode(f)) <==> !FieldRight(MarkerOf(y), Named(y), f) {
      MarkerCauseOf(y, f);
    }
    forall c | forall f: MarkerField :: c != MarkerCode(f) ensures !MarkerCause(y, c) { NoOtherCause(y, c); }
  }

  lemma MarkerCauseOf(y: Case, f: MarkerField)
    requires Readable(MarkerOf(y))
    ensures MarkerCause(y, MarkerCode(f)) <==> !FieldRight(MarkerOf(y), Named(y), f)
  {
    SchemaSame(Get(MarkerOf(y), "schemaVersion"));
    hide Get, Readable, Equal, Number, NumberOf, Named, Branch, Head, Version;
    VersionNamed(y);
  }

  lemma SchemaSame(v: Json)
    ensures Equal(v, Int(3)) <==> Number(v) && NumberOf(v) == 3.0
  {
  }

  lemma NoOtherCause(y: Case, c: Code)
    requires Readable(MarkerOf(y)) && forall f: MarkerField :: c != MarkerCode(f)
    ensures !MarkerCause(y, c)
  {
    hide Get, Readable, Equal;
    assert c != MarkerCode(SchemaField) && c != MarkerCode(BranchField) && c != MarkerCode(HeadField)
      && c != MarkerCode(VersionField);
  }

  predicate FieldRight(m: Json, r: Revision, f: MarkerField) {
    match f
    case SchemaField => Number(Get(m, "schemaVersion")) && NumberOf(Get(m, "schemaVersion")) == 3.0
    case BranchField => Get(m, "branch") == Str(r.branch)
    case HeadField => Get(m, "head") == Str(r.head)
    case VersionField => Get(m, "projectVersion") == Str(r.version)
  }

  lemma MarkerParts(x: Case)
    requires MarkerFacts(x)
    ensures Readable(MarkerOf(x)) && forall f: MarkerField :: FieldRight(MarkerOf(x), Named(x), f)
  {
    hide Get, Readable, Number, NumberOf, Named;
  }

  lemma MarkerValues(x: Case, y: Case, f: MarkerField, v: Json)
    requires MarkerFacts(x) && MarkerDiffers(x, y, f, v) && Named(y) == Named(x)
    ensures Readable(MarkerOf(y)) && (FieldRight(MarkerOf(y), Named(y), f) <==> MarkerGood(x, f, v))
    ensures forall g: MarkerField :: g != f ==> FieldRight(MarkerOf(y), Named(y), g)
  {
    MarkerParts(x);
    hide Get, Readable, Number, NumberOf, Named, SameBut, MarkerFacts, MarkerOf;
    forall g: MarkerField | g != f ensures FieldRight(MarkerOf(y), Named(y), g) {
      assert FieldRight(MarkerOf(x), Named(x), g) && Get(MarkerOf(y), MarkerKey(g)) == Get(MarkerOf(x), MarkerKey(g));
    }
    assert FieldRight(MarkerOf(x), Named(x), f);
  }

  // ---- the builds ----

  function BuildKey(installed: bool): string { if installed then "installedBuildMetadata" else "remoteBuildMetadata" }
  function BuildCode(installed: bool): Code {
    if installed then InstalledBuildVersionMismatch else RemoteBuildVersionMismatch
  }

  function WithBuild(x: Case, installed: bool, v: Json): Case
    requires x.remote.Obj? && Get(x.remote, BuildKey(installed)).Obj?
  {
    WithRemote(x, BuildKey(installed), Put(Get(x.remote, BuildKey(installed)), "project_version", v))
  }

  lemma BuildObjects(x: Case, installed: bool)
    requires BuildFacts(x)
    ensures x.remote.Obj? && Get(x.remote, BuildKey(installed)).Obj?
  {
    hide Named, Truthy;
  }

  /** Another version in either build is refused with exactly its own failure. */
  lemma BuildAltered(x: Case, order: seq<string>, installed: bool, v: Json)
    requires FileOrder(x, order) && Accepted(x, order)
    ensures x.remote.Obj? && Get(x.remote, BuildKey(installed)).Obj?
    ensures Reports(WithBuild(x, installed, v), order, BuildCode(installed), v != Str(Named(x).version))
  {
    hide *;
    Shown(x, order);
    BuildObjects(x, installed);
    var y, key := WithBuild(x, installed, v), BuildKey(installed);
    BuildChanged(x, installed, v);
    BuildKeyApart(installed);
    MarkerSame(x, y, key);
    MarkerKept(x, y, key);
    InstalledSame(x, y, key);
    ContentSame(x, y, key);
    InputsSame(x, y, key);
    LaunchUnchanged(x, y, key);
    UnitSame(x, y, key);
    ShowSame(x, y, key);
    ProcessThere(x, y, key);
    NoneCaused(y, order);
    OneGroup(y, order, OfBuild);
    BuildOnly(x, y, installed, v);
    ReportsGroup(y, order, OfBuild, BuildCode(installed), v != Str(Named(x).version));
  }

  lemma BuildKeyApart(installed: bool)
    ensures var key := BuildKey(installed); Aside(key) && key != "workspaceMarker" && key != "serviceLaunchAudit"
  {
    assert |"installedBuildMetadata"| == 22 && |"remoteBuildMetadata"| == 19 && |"remoteBuildInputs"| == 17;
    assert |"installedManifestSha256"| == 23 && |"installedReleasePointer"| == 23 && |"workspaceTrackedContent"| == 23;
    assert |"installedManifestFileAudit"| == 26;
  }

  lemma MarkerKept(x: Case, y: Case, key: string)
    requires SameBut(x, y, key) && key != "workspaceMarker"
    ensures Get(Get(y.remote, "workspaceMarker"), "trackedContent")
            == Get(Get(x.remote, "workspaceMarker"), "trackedContent")
    ensures Get(Get(y.remote, "workspaceMarker"), "builtInputSha256")
         == Get(Get(x.remote, "workspaceMarker"), "builtInputSha256")
  {
    hide Get;
  }

  /** The altered build, by its parts. */
  ghost predicate BuildDiffers(x: Case, y: Case, installed: bool, v: Json) {
    var m, n := Get(x.remote, BuildKey(installed)), Get(y.remote, BuildKey(installed));
    SameBut(x, y, BuildKey(installed)) && Get(n, "project_version") == v && (Readable(n) <==> Readable(m))
  }

  lemma BuildChanged(x: Case, installed: bool, v: Json)
    requires x.remote.Obj? && Get(x.remote, BuildKey(installed)).Obj?
    ensures SameBut(x, WithBuild(x, installed, v), BuildKey(installed))
    ensures BuildDiffers(x, WithBuild(x, installed, v), installed, v)
  {
    var m := Get(x.remote, BuildKey(installed));
    GetPut(m, "project_version", v);
    assert "_readError"[0] == '_' && "project_version"[0] == 'p';
    hide Get, Put, SameBut, BuildKey;
    RemoteSame(x, BuildKey(installed), Put(m, "project_version", v));
  }

  lemma BuildOnly(x: Case, y: Case, installed: bool, v: Json)
    requires BuildFacts(x) && BuildDiffers(x, y, installed, v)
    ensures forall c :: GroupCause(y, OfBuild, c) <==> c == BuildCode(installed) && v != Str(Named(x).version)
  {
    NamedSame(x, y, BuildKey(installed));
    VersionNamed(y);
    BuildRest(x, y, installed);
    hide Get, Readable, Truthy, Named, Branch, Head, Version, BuildKey, SameBut,
      BuildFacts;
    forall c ensures GroupCause(y, OfBuild, c) <==> c == BuildCode(installed) && v != Str(Named(x).version) {
      BuildCauseOf(x, y, installed, v, c);
    }
  }

  /** What both builds show after the change. */
  ghost predicate BuildSeen(x: Case, y: Case, installed: bool) {
    && !Truthy(Get(y.remote, "workspaceGitError"))
    && (Get(y.remote, "workspaceGitHead") == Null || Get(y.remote, "workspaceGitHead") == Str(Named(x).head))
    && OfVersion(y, Get(y.remote, BuildKey(!installed))) && Readable(Get(y.remote, BuildKey(installed)))
  }

  lemma BuildRest(x: Case, y: Case, installed: bool)
    requires BuildFacts(x) && SameBut(x, y, BuildKey(installed)) && Version(y) == Named(x).version
    requires Readable(Get(y.remote, BuildKey(installed))) <==> Readable(Get(x.remote, BuildKey(installed)))
    ensures BuildSeen(x, y, installed)
  {
    assert BuildKey(true)[0] == 'i' && BuildKey(false)[0] == 'r' && "workspaceGitHead"[0] == 'w'
           && "workspaceGitError"[0] == 'w';
    assert BuildKey(!installed) != BuildKey(installed);
    hide Get, Readable, Truthy, Named, Version;
  }

  lemma BuildCauseOf(x: Case, y: Case, installed: bool, v: Json, c: Code)
    requires BuildSeen(x, y, installed) && Get(Get(y.remote, BuildKey(installed)), "project_version") == v
    requires Head(y) == Named(x).head && Version(y) == Named(x).version
    ensures GroupCause(y, OfBuild, c) <==> c == BuildCode(installed) && v != Str(Named(x).version)
  {
    hide Get, Readable, Truthy, Named, Branch, Head, Version;
  }

  // ---- the service ----

  datatype LaunchField = FragmentPath | WorkingDirectory | ExecStart

  function ShowKey(f: LaunchField): string {
    match f
    case FragmentPath => "FragmentPath"
    case WorkingDirectory => "WorkingDirectory"
    case ExecStart => "ExecStart"
  }

  function ShowCode(f: LaunchField): Code {
    match f
    case FragmentPath => ServiceFragmentPathMismatch
    case WorkingDirectory => ServiceWorkingDirectoryMismatch
    case ExecStart => ServiceExecStartMismatch
  }

  function ShowOf(x: Case): Json { Get(LaunchDoc(x), "show") }

  /** As good as what is there: for ExecStart any text with the launch script in it. */
  ghost predicate ShowGood(x: Case, f: LaunchField, v: Json) {
    if f.ExecStart? then exists before, after :: v == Str(before + Script(x) + after)
      else v == Get(ShowOf(x), ShowKey(f))
  }

  function WithLaunch(x: Case, key: string, v: Json): Case
    requires x.remote.Obj? && LaunchDoc(x).Obj?
  {
    WithRemote(x, "serviceLaunchAudit", Put(LaunchDoc(x), key, v))
  }

  function WithShow(x: Case, f: LaunchField, v: Json): Case
    requires x.remote.Obj? && LaunchDoc(x).Obj? && ShowOf(x).Obj?
  {
    WithLaunch(x, "show", Put(ShowOf(x), ShowKey(f), v))
  }

  lemma LaunchObjects(x: Case)
    requires UnitFacts(x) && ShowFacts(x)
    ensures x.remote.Obj? && LaunchDoc(x).Obj? && ShowOf(x).Obj?
  {
    hide UnitPath, PathOf, Equal, Script, ValidSha256, DropInDoc;
  }

  lemma LaunchChanged(x: Case, key: string, v: Json)
    requires x.remote.Obj? && LaunchDoc(x).Obj? && key != "_readError"
    ensures var y := WithLaunch(x, key, v);
            && SameBut(x, y, "serviceLaunchAudit") && Get(LaunchDoc(y), key) == v
            && (Readable(LaunchDoc(y)) <==> Readable(LaunchDoc(x)))
            && forall k :: k != key ==> Get(LaunchDoc(y), k) == Get(LaunchDoc(x), k)
  {
    var n := Put(LaunchDoc(x), key, v);
    GetPut(LaunchDoc(x), key, v);
    hide Get, Put, SameBut;
    RemoteSame(x, "serviceLaunchAudit", n);
  }

  lemma LaunchKeyApart()
    ensures Aside("serviceLaunchAudit") && "serviceLaunchAudit" !in BUILD_KEYS
            && "serviceLaunchAudit" != "workspaceMarker"
  {
    assert |"serviceLaunchAudit"| == 18 && |"installedObcSha256"| == 18 && "installedObcSha256"[0] == 'i'
           && "serviceLaunchAudit"[0] == 's';
    assert |"workspaceGitError"| == 17;
  }

  lemma LaunchElsewhere(x: Case, y: Case)
    requires SameBut(x, y, "serviceLaunchAudit")
    requires LocalFacts(x) && MarkerFacts(x) && ContentFacts(x) && BuildFacts(x) && ManifestFacts(x) && FileFacts(x)
             && ReleaseFacts(x) && InputFacts(x)
    ensures forall order :: FileOrder(x, order) ==> FileOrder(y, order)
    ensures LocalFacts(y) && MarkerFacts(y) && ContentFacts(y) && BuildFacts(y) && ManifestFacts(y) && FileFacts(y)
            && ReleaseFacts(y) && InputFacts(y)
  {
    hide *;
    LaunchKeyApart();
    MarkerSame(x, y, "serviceLaunchAudit");
    MarkerKept(x, y, "serviceLaunchAudit");
    InstalledSame(x, y, "serviceLaunchAudit");
    ContentSame(x, y, "serviceLaunchAudit");
    BuildSame(x, y, "serviceLaunchAudit");
    InputsSame(x, y, "serviceLaunchAudit");
  }

  /** Other drop-ins, or the same in another order, are refused with exactly their own failure. */
  lemma DropInsAltered(x: Case, order: seq<string>, v: Json)
    requires FileOrder(x, order) && Accepted(x, order)
    ensures x.remote.Obj? && LaunchDoc(x).Obj?
    ensures Reports(WithLaunch(x, "dropInPaths", v), order, ServiceDropinSetMismatch, v != DropInDoc(x))
  {
    hide *;
    Shown(x, order);
    LaunchObjects(x);
    var y := WithLaunch(x, "dropInPaths", v);
    assert "dropInPaths"[0] == 'd' && "_readError"[0] == '_';
    LaunchChanged(x, "dropInPaths", v);
    LaunchElsewhere(x, y);
    LaunchKeyApart();
    LaunchRestSame(x, y, "dropInPaths");
    ShowSame(x, y, "serviceLaunchAudit");
    ProcessThere(x, y, "serviceLaunchAudit");
    DropInsOnly(x, y, v);
    NoneCaused(y, order);
    OneGroup(y, order, OfUnit);
    ReportsGroup(y, order, OfUnit, ServiceDropinSetMismatch, v != DropInDoc(x));
  }

  lemma LaunchRestSame(x: Case, y: Case, key: string)
    requires key == "dropInPaths" || key == "show"
    requires (Readable(LaunchDoc(y)) <==> Readable(LaunchDoc(x)))
             && forall k :: k != key ==> Get(LaunchDoc(y), k) == Get(LaunchDoc(x), k)
    ensures LaunchSame(x, y, {"processTree"}) && (key != "show" ==> LaunchSame(x, y, {"show"}))
    ensures key != "dropInPaths" ==> LaunchSame(x, y, {"service", "files", "dropInPaths"})
  {
    assert |"dropInPaths"| == 11 && |"show"| == 4 && |"processTree"| == 11 && |"service"| == 7 && |"files"| == 5
           && "processTree"[0] == 'p' && "dropInPaths"[0] == 'd';
    hide Get, Readable, LaunchDoc;
  }

  lemma DropInsOnly(x: Case, y: Case, v: Json)
    requires UnitFacts(x) && SameBut(x, y, "serviceLaunchAudit") && Get(LaunchDoc(y), "dropInPaths") == v
    requires (Readable(LaunchDoc(y)) <==> Readable(LaunchDoc(x)))
             && forall k :: k != "dropInPaths" ==> Get(LaunchDoc(y), k) == Get(LaunchDoc(x), k)
    ensures LaunchRead(y)
    ensures forall c :: GroupCause(y, OfUnit, c) <==> c == ServiceDropinSetMismatch && v != DropInDoc(x)
  {
    NoUnitCause(x);
    UnitNames(x, y);
    assert |"dropInPaths"| == 11 && |"service"| == 7 && |"files"| == 5;
    assert Get(Launch(y), "service") == Get(Launch(x), "service") && LaunchFiles(y) == LaunchFiles(x);
    assert Get(Launch(y), "dropInPaths") == v && (Readable(Launch(y)) <==> Readable(Launch(x)));
    LaunchNames(x);
    hide *;
    LaunchReadSame(x, y);
    DropInSetCause(y, v);
    forall c ensures GroupCause(y, OfUnit, c) <==> c == ServiceDropinSetMismatch && v != DropInDoc(x) {
      UnitGroup(y, c);
      if c != ServiceDropinSetMismatch { UnitCauseSame(x, y, c); }
    }
  }

  lemma UnitGroup(y: Case, c: Code)
    ensures GroupCause(y, OfUnit, c) <==> UnitCause(y, c)
  {
    hide UnitCause;
  }

  lemma LaunchReadSame(x: Case, y: Case)
    requires LaunchRead(x) && Unit(y) == Unit(x) && LaunchFiles(y) == LaunchFiles(x)
             && (Readable(Launch(y)) <==> Readable(Launch(x)))
    ensures LaunchRead(y)
  {
    hide Get, Readable, Launch, LaunchFiles, Unit, ValidSha256;
  }

  lemma DropInSetCause(y: Case, v: Json)
    requires LaunchRead(y) && Get(Launch(y), "dropInPaths") == v
    ensures UnitCause(y, ServiceDropinSetMismatch) <==> v != DropInList(y)
  {
    hide Get, LaunchRead, Launch, DropInList, Readable, Fragment;
  }

  lemma UnitCauseSame(x: Case, y: Case, c: Code)
    requires LaunchRead(x) && LaunchRead(y) && c != ServiceDropinSetMismatch && y.tables == x.tables
    requires Get(Launch(y), "service") == Get(Launch(x), "service") && LaunchFiles(y) == LaunchFiles(x)
    requires Fragment(y) == Fragment(x) && Unit(y) == Unit(x) && ExpectedFiles(y) == ExpectedFiles(x)
    requires forall d :: DropInPath(y, d) == DropInPath(x, d) && DropInRecord(y, d) == DropInRecord(x, d)
    ensures UnitCause(y, c) <==> UnitCause(x, c)
  {
    hide Get, Readable, Equal, ValidSha256, Fragment, Launch, Unit, LaunchFiles, DropInPath, DropInList, DropInRecord,
      ExpectedFiles;
  }

  lemma UnitNames(x: Case, y: Case)
    requires y.tables == x.tables && y.sha == x.sha && y.local == x.local
    ensures Fragment(y) == Fragment(x) && Unit(y) == Unit(x) && DropInList(y) == DropInList(x)
    ensures ExpectedFiles(y) == ExpectedFiles(x)
    ensures forall d :: DropInPath(y, d) == DropInPath(x, d) && DropInRecord(y, d) == DropInRecord(x, d)
  {
    hide Get;
    assert Fragment(y) == Fragment(x);
    assert forall d :: DropInPath(y, d) == DropInPath(x, d);
    hide DropInPath, Fragment;
    assert DropInList(y).items == DropInList(x).items;
    assert ExpectedFiles(y) == ExpectedFiles(x);
  }

  /** Another unit file, working directory or start command is refused with exactly its own failure. */
  lemma ShowAltered(x: Case, order: seq<string>, f: LaunchField, v: Json)
    requires FileOrder(x, order) && Accepted(x, order)
    ensures x.remote.Obj? && LaunchDoc(x).Obj? && ShowOf(x).Obj?
    ensures Reports(WithShow(x, f, v), order, ShowCode(f), !ShowGood(x, f, v))
  {
    hide *;
    Shown(x, order);
    LaunchObjects(x);
    var show := Put(ShowOf(x), ShowKey(f), v);
    var y := WithShow(x, f, v);
    WithShowIs(x, f, v);
    assert "show"[0] == 's' && "_readError"[0] == '_';
    LaunchChanged(x, "show", show);
    LaunchElsewhere(x, y);
    LaunchKeyApart();
    LaunchRestSame(x, y, "show");
    assert |"show"| != |"dropInPaths"|;
    UnitSame(x, y, "serviceLaunchAudit");
    ProcessThere(x, y, "serviceLaunchAudit");
    NoneCaused(y, order);
    OneGroup(y, order, OfShow);
    ShowPut(ShowOf(x), f, v);
    ShowOfIs(y);
    ShowOnly(x, y, f, v);
    ReportsGroup(y, order, OfShow, ShowCode(f), !ShowGood(x, f, v));
  }

  lemma WithShowIs(x: Case, f: LaunchField, v: Json)
    requires x.remote.Obj? && LaunchDoc(x).Obj? && ShowOf(x).Obj?
    ensures WithShow(x, f, v) == WithLaunch(x, "show", Put(ShowOf(x), ShowKey(f), v))
  {
    hide WithLaunch, Put, ShowKey;
  }

  lemma ShowOfIs(x: Case)
    ensures ShowOf(x) == Get(LaunchDoc(x), "show")
  {
  }

  ghost predicate ShowDiffers(m: Json, n: Json, f: LaunchField, v: Json) {
    n.Obj? && Get(n, ShowKey(f)) == v && forall g: LaunchField :: g != f ==> Get(n, ShowKey(g)) == Get(m, ShowKey(g))
  }

  lemma ShowPut(m: Json, f: LaunchField, v: Json)
    requires m.Obj?
    ensures ShowDiffers(m, Put(m, ShowKey(f), v), f, v)
  {
    GetPut(m, ShowKey(f), v);
    hide Get;
    forall g: LaunchField | g != f ensures ShowKey(g) != ShowKey(f) {
      assert |"FragmentPath"| == 12 && |"WorkingDirectory"| == 16 && |"ExecStart"| == 9;
    }
  }

  predicate ShowRight(y: Case, f: LaunchField) {
    match f
    case FragmentPath => Get(ShowOf(y), "FragmentPath") == Str(UnitPath(y))
    case WorkingDirectory => Get(ShowOf(y), "WorkingDirectory") == Str(y.root + "/current")
    case ExecStart => Get(ShowOf(y), "ExecStart").Str? && Contains(Get(ShowOf(y), "ExecStart").s, Script(y))
  }

  lemma ShowCauses(y: Case)
    requires LaunchRead(y) && ShowOf(y).Obj?
    ensures forall f: LaunchField :: ShowCause(y, ShowCode(f)) <==> !ShowRight(y, f)
    ensures forall c :: (forall f: LaunchField :: c != ShowCode(f)) ==> !ShowCause(y, c)
  {
    LaunchNames(y);
    hide Get, LaunchRead, UnitPath, Script, Contains, LaunchDoc, Fragment, LaunchScript, Launch;
    forall c | forall f: LaunchField :: c != ShowCode(f) ensures !ShowCause(y, c) {
      assert c != ShowCode(FragmentPath) && c != ShowCode(WorkingDirectory) && c != ShowCode(ExecStart);
    }
  }

  lemma ShowOnly(x: Case, y: Case, f: LaunchField, v: Json)
    requires ShowFacts(x) && LaunchRead(y) && SameBut(x, y, "serviceLaunchAudit")
             && ShowDiffers(ShowOf(x), ShowOf(y), f, v)
    ensures forall c :: GroupCause(y, OfShow, c) <==> c == ShowCode(f) && !ShowGood(x, f, v)
  {
    ShowCauses(y);
    ShowValues(x, y, f, v);
    hide Get, LaunchRead, SameBut, ShowFacts, ShowCause, ShowOf, ShowRight, ShowGood;
  }

  lemma ShowValues(x: Case, y: Case, f: LaunchField, v: Json)
    requires ShowFacts(x) && SameBut(x, y, "serviceLaunchAudit") && ShowDiffers(ShowOf(x), ShowOf(y), f, v)
    ensures ShowRight(y, f) <==> ShowGood(x, f, v)
    ensures forall g: LaunchField :: g != f ==> ShowRight(y, g)
  {
    assert UnitPath(y) == UnitPath(x) && Script(y) == Script(x) && y.root == x.root;
    hide SameBut;
    if v.Str? { ContainsSame(v.s, Script(x)); }
    StartShown(x);
    hide Get, UnitPath, Script, Contains, LaunchDoc;
    assert forall g: LaunchField :: g != f ==> Get(ShowOf(y), ShowKey(g)) == Get(ShowOf(x), ShowKey(g));
    forall g: LaunchField | g != f ensures ShowRight(y, g) {
      assert Get(ShowOf(y), ShowKey(g)) == Get(ShowOf(x), ShowKey(g));
    }
  }

  lemma StartShown(x: Case)
    requires ShowFacts(x)
    ensures Get(ShowOf(x), "FragmentPath") == Str(UnitPath(x))
    ensures Get(ShowOf(x), "WorkingDirectory") == Str(x.root + "/current")
    ensures Get(ShowOf(x), "ExecStart").Str? && Contains(Get(ShowOf(x), "ExecStart").s, Script(x))
  {
    hide Get, UnitPath, Script, Contains, LaunchDoc;
    var before, after :| Get(ShowOf(x), "ExecStart") == Str(before + Script(x) + after);
    ContainsSame(before + Script(x) + after, Script(x));
  }
}
