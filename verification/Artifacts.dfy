/** The manifest of an attempt's retained files, as the importer writes it and the validator checks it. */
module Artifacts {
  import opened Wrappers
  import opened Octets
  import opened Json
  import opened PosixPath
  import opened ArtifactOrder
  import ContentDigest

  datatype Entry = File(content: seq<byte>) | Directory | Other
  type Tree = map<seq<string>, Entry>

  const MANIFEST := ["manifest.json"]

  predicate WellNamed(t: Tree) {
    forall p :: p in t ==> Names(p)
  }

  /** sorted(root.rglob("*")): every entry once, in pathlib's order. */
  ghost predicate Lists(t: Tree, listing: seq<seq<string>>) {
    && (forall p :: p in listing <==> p in t)
    && forall i, k :: 0 <= i < k < |listing| ==> PathLess(listing[i], listing[k])
  }

  predicate RetainedFile(t: Tree, p: seq<string>) {
    p in t && p != MANIFEST && t[p].File?
  }

  predicate Supported(t: Tree) {
    forall p :: p in t && p != MANIFEST ==> !t[p].Other?
  }

  // ---- collecting ----

  /** The retained files, in the order of the listing. */
  function Retained(t: Tree, listing: seq<seq<string>>): seq<seq<string>> {
    if listing == [] then []
    else
      var front, p := Retained(t, listing[..|listing| - 1]), listing[|listing| - 1];
      if RetainedFile(t, p) then front + [p] else front
  }

  function FileRecord(sha: ContentDigest.Hash, p: seq<string>, content: seq<byte>): Json {
    Obj(map["path" := Str(Slashed(p)), "sizeBytes" := Int(|content|),
            "sha256" := Str(ContentDigest.HexDigest(sha(content)))])
  }

  function RecordAt(sha: ContentDigest.Hash, t: Tree, p: seq<string>): Json {
    if RetainedFile(t, p) then FileRecord(sha, p, t[p].content) else Null
  }

  function Records(sha: ContentDigest.Hash, t: Tree, ps: seq<seq<string>>): (r: seq<Json>)
    ensures |r| == |ps| && forall i :: 0 <= i < |ps| ==> r[i] == RecordAt(sha, t, ps[i])
  {
    seq(|ps|, i requires 0 <= i < |ps| => RecordAt(sha, t, ps[i]))
  }

  /** Exactly the listed files, still in pathlib's order. */
  lemma {:induction false} RetainedExact(t: Tree, listing: seq<seq<string>>)
    requires forall i, k :: 0 <= i < k < |listing| ==> PathLess(listing[i], listing[k])
    ensures forall p :: p in Retained(t, listing) <==> p in listing && RetainedFile(t, p)
    ensures forall i, k :: 0 <= i < k < |Retained(t, listing)| ==>
              PathLess(Retained(t, listing)[i], Retained(t, listing)[k])
    decreases |listing|
  {
    hide PathLess, RetainedFile;
    if listing != [] {
      var n := |listing| - 1;
      var front, p := listing[..n], listing[n];
      assert listing == front + [p];
      RetainedExact(t, front);
      var r := Retained(t, front);
      forall i | 0 <= i < |r| ensures PathLess(r[i], p) {
        assert r[i] in r;
        assert r[i] in front;
      }
    }
  }

  /** A file that is neither regular nor a directory stops the collection. */
  method CollectRetainedFiles(sha: ContentDigest.Hash, t: Tree, listing: seq<seq<string>>)
    returns (r: Result<seq<Json>>)
    requires WellNamed(t) && Lists(t, listing)
    ensures r == if Supported(t) then Returned(Records(sha, t, Retained(t, listing))) else Raised
  {
    hide FileRecord, PathLess, Names;
    var records: seq<Json> := [];
    for i := 0 to |listing|
      invariant forall k :: 0 <= k < i && listing[k] != MANIFEST ==> listing[k] in t && !t[listing[k]].Other?
      invariant records == Records(sha, t, Retained(t, listing[..i]))
    {
      var p := listing[i];
      assert p in listing && listing[..i + 1][..i] == listing[..i];
      ManifestText(p);
      if Slashed(p) == "manifest.json" { continue; }
      if t[p].Directory? { continue; }
      if t[p].Other? { return Raised; }
      records := records + [FileRecord(sha, p, t[p].content)];
      assert Retained(t, listing[..i + 1]) == Retained(t, listing[..i]) + [p];
    }
    assert listing[..|listing|] == listing;
    SupportedListing(t, listing);
    return Returned(records);
  }

  lemma ManifestText(p: seq<string>)
    requires Names(p)
    ensures Slashed(p) == "manifest.json" <==> p == MANIFEST
  {
    assert Slashed(MANIFEST) == "manifest.json";
    assert Names(MANIFEST);
    if Slashed(p) == "manifest.json" { SlashedInjective(p, MANIFEST); }
  }

  lemma SupportedListing(t: Tree, listing: seq<seq<string>>)
    requires forall p :: p in listing <==> p in t
    requires forall k :: 0 <= k < |listing| && listing[k] != MANIFEST ==> listing[k] in t && !t[listing[k]].Other?
    ensures Supported(t)
  {
    forall p | p in t && p != MANIFEST ensures !t[p].Other? { assert p in listing; }
  }

  // ---- validating ----

  datatype Code =
    | RetainedFilesInvalid | ArtifactTreeUnreadable | ArtifactFileSetMismatch
    | ArtifactSizeMismatch | ArtifactHashMismatch

  /** The order failures are reported in. */
  function Rank(c: Code): nat {
    match c
    case RetainedFilesInvalid => 0
    case ArtifactTreeUnreadable => 1
    case ArtifactFileSetMismatch => 2
    case ArtifactSizeMismatch => 3
    case ArtifactHashMismatch => 4
  }

  predicate InOrder(failures: seq<Code>) {
    forall i, k :: 0 <= i < k < |failures| ==> Rank(failures[i]) < Rank(failures[k])
  }

  predicate GoodItem(j: Json) {
    && j.Obj? && Get(j, "path").Str? && Safe(Get(j, "path").s)
    && PlainInt(Get(j, "sizeBytes")) && Get(j, "sizeBytes").n >= 0 && ValidSha256(Get(j, "sha256"))
  }

  /** The normalised path of an item. */
  function PathOf(j: Json): string {
    if Get(j, "path").Str? then Written(Parse(Get(j, "path").s)) else ""
  }

  /** Reading stops at the first bad item. */
  function GoodCount(items: seq<Json>): (n: nat)
    ensures n <= |items| && (forall i :: 0 <= i < n ==> GoodItem(items[i])) && (n < |items| ==> !GoodItem(items[n]))
  {
    if items == [] || !GoodItem(items[0]) then 0 else 1 + GoodCount(items[1..])
  }

  function Paths(items: seq<Json>): seq<string> {
    seq(|items|, i requires 0 <= i < |items| => PathOf(items[i]))
  }

  /** Sorted and without repetition. */
  predicate Increasing(paths: seq<string>) {
    forall i, k :: 0 <= i < k < |paths| ==> Less(paths[i], paths[k])
  }

  /** The dict an item list becomes: a later item replaces an earlier one of the same key. */
  function Index(keys: seq<string>, items: seq<Json>): map<string, Json>
    requires |keys| == |items|
  {
    if keys == [] then map[]
    else Index(keys[..|keys| - 1], items[..|keys| - 1])[keys[|keys| - 1] := items[|keys| - 1]]
  }

  function ReadItems(retained: Json): seq<Json> {
    if retained.Arr? then retained.items[..GoodCount(retained.items)] else []
  }

  function Expected(retained: Json): map<string, Json> {
    Index(Paths(ReadItems(retained)), ReadItems(retained))
  }

  function Actual(sha: ContentDigest.Hash, t: Tree, listing: seq<seq<string>>): map<string, Json> {
    if !Supported(t) then map[]
    else
      var records := Records(sha, t, Retained(t, listing));
      Index(Paths(records), records)
  }

  predicate Differ(actual: map<string, Json>, expected: map<string, Json>, key: string) {
    exists p :: p in expected && p in actual && Get(actual[p], key) != Get(expected[p], key)
  }

  predicate Cause(retained: Json, actual: map<string, Json>, supported: bool, c: Code) {
    var expected := Expected(retained);
    match c
    case RetainedFilesInvalid =>
      !retained.Arr? || GoodCount(retained.items) < |retained.items| || !Increasing(Paths(ReadItems(retained)))
    case ArtifactTreeUnreadable => !supported
    case ArtifactFileSetMismatch => actual.Keys != expected.Keys
    case ArtifactSizeMismatch => actual.Keys == expected.Keys && Differ(actual, expected, "sizeBytes")
    case ArtifactHashMismatch => actual.Keys == expected.Keys && Differ(actual, expected, "sha256")
  }

  ghost predicate Accepts(sha: ContentDigest.Hash, retained: Json, t: Tree, listing: seq<seq<string>>) {
    forall c: Code :: !Cause(retained, Actual(sha, t, listing), Supported(t), c)
  }

  // ---- the validator ----

  lemma IndexNext(keys: seq<string>, items: seq<Json>, key: string, item: Json)
    requires |keys| == |items|
    ensures Index(keys + [key], items + [item]) == Index(keys, items)[key := item]
  {
    var n := |keys|;
    assert (keys + [key])[..n] == keys && (items + [item])[..n] == items;
  }

  /** The item list, read up to the first bad item. */
  method ReadRetained(items: seq<Json>) returns (n: nat, paths: seq<string>, expected: map<string, Json>)
    ensures n == GoodCount(items) && paths == Paths(items[..n]) && expected == Index(paths, items[..n])
  {
    hide GoodItem, PathOf, Index;
    n, paths, expected := 0, [], map[];
    IndexEmpty();
    while n < |items| && GoodItem(items[n])
      invariant n <= |items| && forall i :: 0 <= i < n ==> GoodItem(items[i])
      invariant paths == Paths(items[..n]) && expected == Index(paths, items[..n])
    {
      var path := PathOf(items[n]);
      assert items[..n + 1] == items[..n] + [items[n]];
      assert Paths(items[..n + 1]) == paths + [path];
      IndexNext(paths, items[..n], path, items[n]);
      paths := paths + [path];
      expected := expected[path := items[n]];
      n := n + 1;
    }
    OneCount(items, n);
  }

  lemma IndexEmpty()
    ensures Index([], []) == map[]
  {
  }

  lemma OneCount(items: seq<Json>, n: nat)
    requires n <= |items| && (forall i :: 0 <= i < n ==> GoodItem(items[i])) && (n < |items| ==> !GoodItem(items[n]))
    ensures n == GoodCount(items)
  {
    hide GoodItem;
  }

  method IsIncreasing(paths: seq<string>) returns (b: bool)
    ensures b <==> Increasing(paths)
  {
    hide Less;
    for i := 0 to |paths|
      invariant forall j, k :: 0 <= j < k < i ==> Less(paths[j], paths[k])
    {
      for j := 0 to i
        invariant forall m :: 0 <= m < j ==> Less(paths[m], paths[i])
      {
        if !Less(paths[j], paths[i]) { return false; }
      }
    }
    return true;
  }

  /** The dict of the collected records, by their paths as written. */
  method IndexRecords(records: seq<Json>) returns (actual: map<string, Json>)
    requires forall i :: 0 <= i < |records| ==>
               Get(records[i], "path").Str? && Get(records[i], "path").s == PathOf(records[i])
    ensures actual == Index(Paths(records), records)
  {
    hide PathOf, Get, Index;
    actual := map[];
    IndexEmpty();
    assert records[..0] == [] && Paths(records[..0]) == [];
    for i := 0 to |records|
      invariant actual == Index(Paths(records[..i]), records[..i])
    {
      assert records[..i + 1] == records[..i] + [records[i]];
      assert Paths(records[..i + 1]) == Paths(records[..i]) + [PathOf(records[i])];
      IndexNext(Paths(records[..i]), records[..i], PathOf(records[i]), records[i]);
      actual := actual[Get(records[i], "path").s := records[i]];
    }
    assert records[..|records|] == records;
  }

  method ValidateRetainedFiles(sha: ContentDigest.Hash, retained: Json, t: Tree, listing: seq<seq<string>>)
    returns (failures: seq<Code>)
    requires WellNamed(t) && Lists(t, listing)
    ensures forall c :: c in failures <==> Cause(retained, Actual(sha, t, listing), Supported(t), c)
    ensures InOrder(failures)
    ensures failures == [] <==> Accepts(sha, retained, t, listing)
  {
    hide Cause, Index, Lists, WellNamed, Supported;
    var actual: map<string, Json> := map[];
    var collected := CollectRetainedFiles(sha, t, listing);
    if collected.Returned? {
      ListedRecords(sha, t, listing);
      actual := IndexRecords(collected.value);
    }
    failures := Judge(retained, actual, collected.Returned?);
    if failures != [] { assert failures[0] in failures; }
  }

  lemma ListedRecords(sha: ContentDigest.Hash, t: Tree, listing: seq<seq<string>>)
    requires WellNamed(t) && Lists(t, listing)
    ensures forall j :: j in Records(sha, t, Retained(t, listing)) ==> Get(j, "path") == Str(PathOf(j))
  {
    hide FileRecord, GoodItem, PathOf, Get, Slashed, PathLess;
    RetainedExact(t, listing);
    RecordPaths(sha, t, Retained(t, listing));
  }

  method Judge(retained: Json, actual: map<string, Json>, supported: bool) returns (failures: seq<Code>)
    ensures forall c :: c in failures <==> Cause(retained, actual, supported, c)
    ensures InOrder(failures)
  {
    hide Expected, GoodCount, Increasing, Paths, ReadItems, Differ, InOrder, Rank;
    var invalid, expected := ReadManifest(retained);
    var same := actual.Keys == expected.Keys;
    var sizes := same && Differ(actual, expected, "sizeBytes");
    var hashes := same && Differ(actual, expected, "sha256");
    failures := Report(invalid, !supported, !same, sizes, hashes);
  }

  method Report(invalid: bool, unreadable: bool, mismatch: bool, sizes: bool, hashes: bool)
    returns (failures: seq<Code>)
    ensures forall c :: c in failures <==>
              match c
              case RetainedFilesInvalid => invalid
              case ArtifactTreeUnreadable => unreadable
              case ArtifactFileSetMismatch => mismatch
              case ArtifactSizeMismatch => sizes
              case ArtifactHashMismatch => hashes
    ensures InOrder(failures)
  {
    failures := [];
    failures := Add(failures, invalid, RetainedFilesInvalid);
    failures := Add(failures, unreadable, ArtifactTreeUnreadable);
    failures := Add(failures, mismatch, ArtifactFileSetMismatch);
    failures := Add(failures, sizes, ArtifactSizeMismatch);
    failures := Add(failures, hashes, ArtifactHashMismatch);
  }

  method Add(failures: seq<Code>, holds: bool, code: Code) returns (r: seq<Code>)
    requires InOrder(failures) && forall f :: f in failures ==> Rank(f) < Rank(code)
    ensures InOrder(r) && forall c :: c in r <==> c in failures || (holds && c == code)
  {
    r := if holds then failures + [code] else failures;
  }

  method ReadManifest(retained: Json) returns (invalid: bool, expected: map<string, Json>)
    ensures expected == Expected(retained)
    ensures invalid <==>
            (!retained.Arr? || GoodCount(retained.items) < |retained.items| || !Increasing(Paths(ReadItems(retained))))
  {
    hide GoodItem, PathOf, Index, Increasing;
    if !retained.Arr? {
      IndexEmpty();
      assert Paths([]) == [];
      return true, map[];
    }
    var n, paths, found := ReadRetained(retained.items);
    var sorted := IsIncreasing(paths);
    return n < |retained.items| || !sorted, found;
  }

  // ---- the records of a tree ----

  lemma {:induction false} HexValid(d: seq<byte>)
    ensures |ContentDigest.HexDigest(d)| == 2 * |d| && Hex(ContentDigest.HexDigest(d))
    decreases |d|
  {
    if d != [] {
      HexValid(d[1..]);
      var a, b := d[0] / 16, d[0] % 16;
      assert HexChar(ContentDigest.HexDigit(a)) && HexChar(ContentDigest.HexDigit(b));
      var s := ContentDigest.HexDigest(d);
      assert s == [ContentDigest.HexDigit(a), ContentDigest.HexDigit(b)] + ContentDigest.HexDigest(d[1..]);
    }
  }

  lemma RecordFields(sha: ContentDigest.Hash, p: seq<string>, content: seq<byte>)
    ensures var j := FileRecord(sha, p, content);
            && j.Obj? && Get(j, "path") == Str(Slashed(p)) && Get(j, "sizeBytes") == Int(|content|)
            && Get(j, "sha256") == Str(ContentDigest.HexDigest(sha(content)))
  {
  }

  lemma RecordGood(sha: ContentDigest.Hash, p: seq<string>, content: seq<byte>)
    requires Names(p)
    ensures GoodItem(FileRecord(sha, p, content)) && PathOf(FileRecord(sha, p, content)) == Slashed(p)
  {
    RecordFields(sha, p, content);
    WrittenIsSafe(p);
    HexValid(sha(content));
    hide FileRecord, Safe, Slashed, Parse, Written, Names, Hex, ContentDigest.HexDigest, Get;
  }

  /** Every record of a tree is a good item under its own path. */
  lemma RecordPaths(sha: ContentDigest.Hash, t: Tree, ps: seq<seq<string>>)
    requires WellNamed(t) && forall p :: p in ps ==> RetainedFile(t, p)
    ensures var records := Records(sha, t, ps);
            && (forall i :: 0 <= i < |ps| ==>
                  RetainedFile(t, ps[i]) && GoodItem(records[i]) && PathOf(records[i]) == Slashed(ps[i]))
            && (forall i :: 0 <= i < |ps| ==> Get(records[i], "path") == Str(PathOf(records[i])))
  {
    hide FileRecord, GoodItem, PathOf, Names, Get;
    forall i | 0 <= i < |ps|
      ensures var j := RecordAt(sha, t, ps[i]);
              RetainedFile(t, ps[i]) && GoodItem(j) && PathOf(j) == Slashed(ps[i]) && Get(j, "path") == Str(PathOf(j))
    {
      assert ps[i] in ps;
      RecordGood(sha, ps[i], t[ps[i]].content);
      RecordFields(sha, ps[i], t[ps[i]].content);
    }
  }
}
