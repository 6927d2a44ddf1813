/** The importer's manifest judged by the validator: when it is accepted, and that nothing altered is. */
module ArtifactImport {
  import opened Octets
  import opened Json
  import opened PosixPath
  import opened ArtifactOrder
  import opened Artifacts
  import ContentDigest

  /** The retained files of two trees are the same, contents included. */
  ghost predicate SameFiles(s: Tree, t: Tree) {
    forall p :: (RetainedFile(s, p) <==> RetainedFile(t, p)) && (RetainedFile(s, p) ==> s[p] == t[p])
  }

  /** No two retained files clash. */
  predicate NoClash(t: Tree) {
    forall p, q :: p in t && q in t && RetainedFile(t, p) && RetainedFile(t, q) && PathLess(p, q) ==> !Clash(p, q)
  }

  /** The manifest the importer writes for a tree. */
  function Imported(sha: ContentDigest.Hash, t: Tree, listing: seq<seq<string>>): Json {
    Arr(Records(sha, t, Retained(t, listing)))
  }

  // ---- the dict of a tree's records ----

  lemma {:induction false} IndexKeys(keys: seq<string>, items: seq<Json>)
    requires |keys| == |items|
    ensures forall k :: k in Index(keys, items) <==> k in keys
    decreases |keys|
  {
    if keys != [] {
      var n := |keys| - 1;
      IndexKeys(keys[..n], items[..n]);
      assert keys == keys[..n] + [keys[n]];
    }
  }

  lemma {:induction false} IndexAt(keys: seq<string>, items: seq<Json>, i: nat)
    requires |keys| == |items| && i < |keys| && forall j, k :: 0 <= j < k < |keys| ==> keys[j] != keys[k]
    ensures keys[i] in Index(keys, items) && Index(keys, items)[keys[i]] == items[i]
    decreases |keys|
  {
    var n := |keys| - 1;
    if i < n {
      IndexAt(keys[..n], items[..n], i);
      assert keys[i] != keys[n];
    }
  }

  /** Its keys are the written paths of the retained files, each with its own record. */
  ghost predicate Indexes(sha: ContentDigest.Hash, t: Tree, m: map<string, Json>) {
    && (forall p :: RetainedFile(t, p) ==> Slashed(p) in m && m[Slashed(p)] == FileRecord(sha, p, t[p].content))
    && (forall k :: k in m ==> exists p :: RetainedFile(t, p) && Slashed(p) == k)
  }

  /** `ps` lists the retained files of `t`, each once, in pathlib's order. */
  ghost predicate RetainedList(t: Tree, ps: seq<seq<string>>) {
    && (forall p :: p in ps <==> RetainedFile(t, p))
    && (forall i, k :: 0 <= i < k < |ps| ==> PathLess(ps[i], ps[k]))
  }

  lemma RetainedListed(t: Tree, listing: seq<seq<string>>)
    requires Lists(t, listing)
    ensures RetainedList(t, Retained(t, listing))
  {
    hide PathLess, Retained;
    RetainedExact(t, listing);
  }

  lemma RecordsIndexed(sha: ContentDigest.Hash, t: Tree, ps: seq<seq<string>>)
    requires WellNamed(t) && RetainedList(t, ps)
    ensures var records := Records(sha, t, ps); Indexes(sha, t, Index(Paths(records), records))
  {
    hide FileRecord, Slashed, Index, Records, Paths, RetainedFile, WellNamed, RetainedList, ContentAt;
    KeysKnown(sha, t, ps);
    var records := Records(sha, t, ps);
    var m := Index(Paths(records), records);
    ContentsAt(t);
    forall p | RetainedFile(t, p) ensures Slashed(p) in m && m[Slashed(p)] == FileRecord(sha, p, ContentAt(t, p)) {
      EntryIndexed(sha, t, ps, p);
    }
    forall k | k in m ensures exists p :: RetainedFile(t, p) && Slashed(p) == k {
      KeyIndexed(sha, t, ps, k);
    }
  }

  /** The keys are the written paths, no two the same. */
  lemma KeysKnown(sha: ContentDigest.Hash, t: Tree, ps: seq<seq<string>>)
    requires WellNamed(t) && RetainedList(t, ps)
    ensures var keys := Paths(Records(sha, t, ps));
            && |keys| == |ps| && (forall i :: 0 <= i < |ps| ==> keys[i] == Slashed(ps[i]) && RetainedFile(t, ps[i]))
            && forall i, k :: 0 <= i < k < |keys| ==> keys[i] != keys[k]
  {
    hide PathLess, FileRecord, GoodItem, PathOf, Slashed, Get, Names, RetainedFile;
    RecordPaths(sha, t, ps);
    KeysDistinct(t, ps, Paths(Records(sha, t, ps)));
  }

  lemma EntryIndexed(sha: ContentDigest.Hash, t: Tree, ps: seq<seq<string>>, p: seq<string>)
    requires WellNamed(t) && RetainedList(t, ps) && RetainedFile(t, p)
    ensures var records := Records(sha, t, ps); var m := Index(Paths(records), records);
            Slashed(p) in m && m[Slashed(p)] == FileRecord(sha, p, ContentAt(t, p))
  {
    KeysKnown(sha, t, ps);
    hide PathLess, FileRecord, PathOf, Slashed, WellNamed;
    var records := Records(sha, t, ps);
    var i :| 0 <= i < |ps| && ps[i] == p;
    IndexAt(Paths(records), records, i);
  }

  lemma KeyIndexed(sha: ContentDigest.Hash, t: Tree, ps: seq<seq<string>>, k: string)
    requires WellNamed(t) && RetainedList(t, ps)
    requires var records := Records(sha, t, ps); k in Index(Paths(records), records)
    ensures exists p :: RetainedFile(t, p) && Slashed(p) == k
  {
    KeysKnown(sha, t, ps);
    hide PathOf, Slashed, RetainedFile, WellNamed, RetainedList;
    var records := Records(sha, t, ps);
    var keys := Paths(records);
    IndexKeys(keys, records);
    var i :| 0 <= i < |keys| && keys[i] == k;
    assert RetainedFile(t, ps[i]) && Slashed(ps[i]) == k;
  }

  function ContentAt(t: Tree, p: seq<string>): seq<byte> {
    if RetainedFile(t, p) then t[p].content else []
  }

  lemma ContentsAt(t: Tree)
    ensures forall p :: RetainedFile(t, p) ==> p in t && t[p].File? && ContentAt(t, p) == t[p].content
  {
  }

  lemma KeysDistinct(t: Tree, ps: seq<seq<string>>, keys: seq<string>)
    requires WellNamed(t) && |keys| == |ps|
    requires forall i :: 0 <= i < |ps| ==> RetainedFile(t, ps[i]) && keys[i] == Slashed(ps[i])
    requires forall i, k :: 0 <= i < k < |ps| ==> PathLess(ps[i], ps[k])
    ensures forall i, k :: 0 <= i < k < |keys| ==> keys[i] != keys[k]
  {
    hide PathLess, Slashed, Names;
    forall i, k | 0 <= i < k < |keys| ensures keys[i] != keys[k] {
      PathLessDistinct(ps[i], ps[k]);
      if Slashed(ps[i]) == Slashed(ps[k]) { SlashedInjective(ps[i], ps[k]); }
    }
  }

  lemma {:induction false} PathLessDistinct(p: seq<string>, q: seq<string>)
    requires PathLess(p, q)
    ensures p != q
    decreases |p|
  {
    if p != [] && p[0] == q[0] {
      PathLessDistinct(p[1..], q[1..]);
    } else if p != [] {
      LessIrreflexive(p[0]);
    }
  }

  // ---- reading the importer's manifest ----

  lemma ImportedReads(sha: ContentDigest.Hash, t: Tree, listing: seq<seq<string>>)
    requires WellNamed(t) && Lists(t, listing)
    ensures var records := Records(sha, t, Retained(t, listing));
            && GoodCount(records) == |records| && ReadItems(Imported(sha, t, listing)) == records
            && Indexes(sha, t, Expected(Imported(sha, t, listing)))
            && (Increasing(Paths(records)) <==> NoClash(t))
  {
    hide *;
    RetainedListed(t, listing);
    var ps := Retained(t, listing);
    AllGood(sha, t, ps);
    RecordsIndexed(sha, t, ps);
    SortedIffNoClash(sha, t, ps);
    ReadsAll(Records(sha, t, ps));
    ImportedIs(sha, t, listing);
    ExpectedIs(Imported(sha, t, listing));
  }

  lemma ReadsAll(records: seq<Json>)
    requires forall j :: j in records ==> GoodItem(j)
    ensures GoodCount(records) == |records| && ReadItems(Arr(records)) == records
  {
    hide GoodItem;
    forall i | 0 <= i < |records| ensures GoodItem(records[i]) { assert records[i] in records; }
    OneCount(records, |records|);
    assert records[..|records|] == records;
  }

  lemma ImportedIs(sha: ContentDigest.Hash, t: Tree, listing: seq<seq<string>>)
    ensures Imported(sha, t, listing) == Arr(Records(sha, t, Retained(t, listing)))
  {
  }

  lemma ExpectedIs(retained: Json)
    ensures Expected(retained) == Index(Paths(ReadItems(retained)), ReadItems(retained))
  {
  }

  lemma AllGood(sha: ContentDigest.Hash, t: Tree, ps: seq<seq<string>>)
    requires WellNamed(t) && RetainedList(t, ps)
    ensures forall j :: j in Records(sha, t, ps) ==> GoodItem(j)
  {
    hide GoodItem, FileRecord, Names, PathLess;
    forall j | j in Records(sha, t, ps) ensures GoodItem(j) {
      var i :| 0 <= i < |ps| && Records(sha, t, ps)[i] == j;
      assert ps[i] in ps;
      RecordGood(sha, ps[i], t[ps[i]].content);
    }
  }

  /** The manifest's paths are in string order exactly when no two retained files clash. */
  lemma SortedIffNoClash(sha: ContentDigest.Hash, t: Tree, ps: seq<seq<string>>)
    requires WellNamed(t) && RetainedList(t, ps)
    ensures Increasing(Paths(Records(sha, t, ps))) <==> NoClash(t)
  {
    hide PathLess, FileRecord, GoodItem, PathOf, Slashed, Get, Names, Clash, Less, RetainedFile;
    RecordPaths(sha, t, ps);
    var keys := Paths(Records(sha, t, ps));
    assert forall i :: 0 <= i < |ps| ==> keys[i] == Slashed(ps[i]);
    forall i, k | 0 <= i < k < |ps| ensures Less(keys[i], keys[k]) <==> !Clash(ps[i], ps[k]) {
      InTree(t, ps[i]);
      InTree(t, ps[k]);
      OrdersAgree(ps[i], ps[k]);
    }
    if NoClash(t) {
      forall i, k | 0 <= i < k < |ps| ensures !Clash(ps[i], ps[k]) {
        InTree(t, ps[i]);
        InTree(t, ps[k]);
      }
    }
    if Increasing(keys) {
      forall p, q | p in t && q in t && RetainedFile(t, p) && RetainedFile(t, q) && PathLess(p, q)
        ensures !Clash(p, q)
      {
        PairListed(t, ps, p, q);
      }
    }
  }

  lemma InTree(t: Tree, p: seq<string>)
    requires WellNamed(t) && RetainedFile(t, p)
    ensures p in t && Names(p)
  {
    hide Names;
  }

  lemma PairListed(t: Tree, ps: seq<seq<string>>, p: seq<string>, q: seq<string>)
    requires RetainedList(t, ps) && RetainedFile(t, p) && RetainedFile(t, q) && PathLess(p, q)
    ensures exists i, k :: 0 <= i < k < |ps| && ps[i] == p && ps[k] == q
  {
    hide PathLess, RetainedFile;
    var i :| 0 <= i < |ps| && ps[i] == p;
    var k :| 0 <= k < |ps| && ps[k] == q;
    PathLessDistinct(p, q);
    PathLessAsymmetric(p, q);
  }

  lemma {:induction false} PathLessAsymmetric(p: seq<string>, q: seq<string>)
    ensures !(PathLess(p, q) && PathLess(q, p))
    decreases |p|
  {
    if p != [] && q != [] {
      if p[0] == q[0] { PathLessAsymmetric(p[1..], q[1..]); } else { LessAsymmetric(p[0], q[0]); }
    }
  }

  // ---- when it is accepted ----

  /** Over an unchanged tree the importer's own manifest is accepted exactly when no two retained files
    * clash: the condition names the paths whose component order and string order differ. */
  lemma UnchangedAcceptedIff(sha: ContentDigest.Hash, s: Tree, ls: seq<seq<string>>, t: Tree, lt: seq<seq<string>>)
    requires WellNamed(s) && Lists(s, ls) && WellNamed(t) && Lists(t, lt) && Supported(t) && SameFiles(s, t)
    ensures Accepts(sha, Imported(sha, s, ls), t, lt) <==> NoClash(s)
  {
    hide *;
    ImportedReads(sha, s, ls);
    ImportedIs(sha, s, ls);
    ActualIndexed(sha, t, lt);
    var m, actual := Imported(sha, s, ls), Actual(sha, t, lt);
    SameIndex(sha, s, t, Expected(m), actual);
    EqualIndexes(m, actual);
    AcceptsSupported(sha, m, t, lt);
  }

  lemma AcceptsSupported(sha: ContentDigest.Hash, retained: Json, t: Tree, lt: seq<seq<string>>)
    requires Supported(t)
    ensures Accepts(sha, retained, t, lt) <==> forall c: Code :: !Cause(retained, Actual(sha, t, lt), true, c)
  {
    hide Cause, Actual;
  }

  /** Where the two dicts agree, only the order of the paths is left to fail. */
  lemma EqualIndexes(retained: Json, actual: map<string, Json>)
    requires retained.Arr? && GoodCount(retained.items) == |retained.items| && actual == Expected(retained)
    ensures (forall c: Code :: !Cause(retained, actual, true, c)) <==> Increasing(Paths(ReadItems(retained)))
  {
    hide Expected, GoodCount, Increasing, Paths, ReadItems, Get;
    assert Increasing(Paths(ReadItems(retained))) <==> !Cause(retained, actual, true, RetainedFilesInvalid);
  }

  lemma SameIndex(sha: ContentDigest.Hash, s: Tree, t: Tree, expected: map<string, Json>, actual: map<string, Json>)
    requires SameFiles(s, t) && Indexes(sha, s, expected) && Indexes(sha, t, actual)
    ensures expected == actual
  {
    hide Slashed, FileRecord, RetainedFile;
    forall k ensures k in expected <==> k in actual {
    }
    forall k | k in expected ensures expected[k] == actual[k] {
      var p :| RetainedFile(s, p) && Slashed(p) == k;
      FileIn(s, p);
      FileIn(t, p);
    }
  }

  lemma FileIn(t: Tree, p: seq<string>)
    requires RetainedFile(t, p)
    ensures p in t && t[p].File?
  {
  }

  // ---- what it rejects ----

  function Contents(t: Tree): set<seq<byte>> {
    set p | p in t && RetainedFile(t, p) :: ContentAt(t, p)
  }

  /** Under a hash without collisions among the contents at hand, an accepted tree holds exactly the files
    * that were imported: an added, removed or altered file, or one of an unsupported kind, is rejected. */
  lemma AcceptedMeansUnchanged(sha: ContentDigest.Hash, s: Tree, ls: seq<seq<string>>, t: Tree, lt: seq<seq<string>>)
    requires WellNamed(s) && Lists(s, ls) && WellNamed(t) && Lists(t, lt)
    requires ContentDigest.CollisionFree(sha, Contents(s) + Contents(t))
    requires Accepts(sha, Imported(sha, s, ls), t, lt)
    ensures Supported(t) && SameFiles(s, t) && NoClash(s)
  {
    ImportedReads(sha, s, ls);
    AcceptsParts(sha, Imported(sha, s, ls), t, lt);
    hide *;
    ActualIndexed(sha, t, lt);
    SameTrees(sha, s, t, Expected(Imported(sha, s, ls)), Actual(sha, t, lt));
  }

  lemma AcceptsParts(sha: ContentDigest.Hash, retained: Json, t: Tree, lt: seq<seq<string>>)
    requires Accepts(sha, retained, t, lt)
    ensures Supported(t) && Increasing(Paths(ReadItems(retained)))
    ensures Actual(sha, t, lt).Keys == Expected(retained).Keys
            && !Differ(Actual(sha, t, lt), Expected(retained), "sha256")
  {
    hide Expected, GoodCount, Increasing, Paths, ReadItems, Differ, Actual, Supported;
    var actual := Actual(sha, t, lt);
    assert !Cause(retained, actual, Supported(t), ArtifactTreeUnreadable);
    assert !Cause(retained, actual, Supported(t), RetainedFilesInvalid);
    assert !Cause(retained, actual, Supported(t), ArtifactFileSetMismatch);
    assert !Cause(retained, actual, Supported(t), ArtifactHashMismatch);
  }

  lemma ActualIndexed(sha: ContentDigest.Hash, t: Tree, lt: seq<seq<string>>)
    requires WellNamed(t) && Lists(t, lt) && Supported(t)
    ensures Indexes(sha, t, Actual(sha, t, lt))
  {
    RetainedListed(t, lt);
    RecordsIndexed(sha, t, Retained(t, lt));
    hide Index, Records, Paths, Indexes, Lists, WellNamed;
  }

  lemma SameTrees(sha: ContentDigest.Hash, s: Tree, t: Tree, expected: map<string, Json>, actual: map<string, Json>)
    requires WellNamed(s) && WellNamed(t) && Indexes(sha, s, expected) && Indexes(sha, t, actual)
    requires ContentDigest.CollisionFree(sha, Contents(s) + Contents(t))
    requires actual.Keys == expected.Keys && !Differ(actual, expected, "sha256")
    ensures SameFiles(s, t)
  {
    hide RetainedFile, FileRecord, Slashed, Contents, ContentDigest.CollisionFree, Get;
    forall p | RetainedFile(s, p) ensures RetainedFile(t, p) {
      var q :| RetainedFile(t, q) && Slashed(q) == Slashed(p);
      OneName(s, t, p, q);
    }
    forall p | RetainedFile(t, p) ensures RetainedFile(s, p) {
      var q :| RetainedFile(s, q) && Slashed(q) == Slashed(p);
      OneName(s, t, q, p);
    }
    forall p | RetainedFile(s, p) ensures p in s && p in t && s[p] == t[p] {
      FileIn(s, p);
      FileIn(t, p);
      RecordFields(sha, p, s[p].content);
      RecordFields(sha, p, t[p].content);
      ContentDigest.HexInjective(sha(s[p].content), sha(t[p].content));
      SameContent(sha, s, t, p);
    }
  }

  lemma OneName(s: Tree, t: Tree, p: seq<string>, q: seq<string>)
    requires WellNamed(s) && WellNamed(t) && RetainedFile(s, p) && RetainedFile(t, q) && Slashed(p) == Slashed(q)
    ensures p == q
  {
    hide Names, Slashed;
    SlashedInjective(p, q);
  }

  lemma SameContent(sha: ContentDigest.Hash, s: Tree, t: Tree, p: seq<string>)
    requires ContentDigest.CollisionFree(sha, Contents(s) + Contents(t))
    requires RetainedFile(s, p) && RetainedFile(t, p) && sha(s[p].content) == sha(t[p].content)
    ensures s[p] == t[p]
  {
    assert ContentAt(s, p) in Contents(s) && ContentAt(t, p) in Contents(t);
  }

  /** The validator reads the tree with the manifest in it; that changes no retained file. */
  lemma ManifestNotRetained(t: Tree, bytes: seq<byte>)
    ensures SameFiles(t, t[MANIFEST := File(bytes)]) && (Supported(t) ==> Supported(t[MANIFEST := File(bytes)]))
  {
  }

  /** A tree with foo/x and foo-2/y, whatever else it holds: the importer's own manifest is refused over the
    * very tree it was written for. */
  lemma FooRefused(sha: ContentDigest.Hash, t: Tree, listing: seq<seq<string>>)
    requires WellNamed(t) && Lists(t, listing) && Supported(t)
    requires RetainedFile(t, ["foo", "x"]) && RetainedFile(t, ["foo-2", "y"])
    ensures !Accepts(sha, Imported(sha, t, listing), t, listing)
  {
    FooClash();
    UnchangedAcceptedIff(sha, t, listing, t, listing);
    hide Accepts, Lists, WellNamed, PathLess, Clash, Names, Slashed, Less;
    var p, q := ["foo", "x"], ["foo-2", "y"];
    assert p in t && q in t && RetainedFile(t, p) && RetainedFile(t, q) && PathLess(p, q) && Clash(p, q);
  }

  // ---- destinations ----

  function Digit(n: nat): char
    requires n < 10
  {
    '0' + n as char
  }

  function Decimal(n: nat): (s: string)
    ensures s != ""
  {
    if n < 10 then [Digit(n)] else Decimal(n / 10) + [Digit(n % 10)]
  }

  lemma {:induction false} DecimalInjective(m: nat, n: nat)
    requires Decimal(m) == Decimal(n)
    ensures m == n
    decreases m + n
  {
    var s, t := Decimal(m), Decimal(n);
    assert s[|s| - 1] == Digit(m % 10) && t[|t| - 1] == Digit(n % 10);
    assert m % 10 == n % 10;
    if m >= 10 && n >= 10 {
      assert s[..|s| - 1] == Decimal(m / 10) && t[..|t| - 1] == Decimal(n / 10);
      DecimalInjective(m / 10, n / 10);
    }
  }

  /** The k-th name tried: the plain one, then -2, -3 and so on. */
  function Candidate(name: string, k: nat): string {
    if k < 2 then name else name + "-" + Decimal(k)
  }

  lemma CandidatesDiffer(name: string, j: nat, k: nat)
    requires 1 <= j < k
    ensures Candidate(name, j) != Candidate(name, k)
  {
    hide Decimal;
    var b := Candidate(name, k);
    assert |b| > |name|;
    if j >= 2 && Candidate(name, j) == b {
      assert Candidate(name, j)[|name| + 1..] == Decimal(j) && b[|name| + 1..] == Decimal(k);
      DecimalInjective(j, k);
    }
  }

  /** Finds the first free name; it always ends, since only finitely many names are taken. */
  method EnsureUniqueDestination(taken: set<string>, name: string) returns (k: nat)
    ensures 1 <= k && Candidate(name, k) !in taken && forall j :: 1 <= j < k ==> Candidate(name, j) in taken
  {
    hide Candidate;
    k := 1;
    ghost var tried: set<string> := {};
    while Candidate(name, k) in taken
      invariant 1 <= k && tried <= taken
      invariant forall j :: 1 <= j < k ==> Candidate(name, j) in tried
      invariant forall c :: c in tried ==> exists j :: 1 <= j < k && Candidate(name, j) == c
      decreases taken - tried
    {
      var c := Candidate(name, k);
      forall j | 1 <= j < k ensures Candidate(name, j) != c { CandidatesDiffer(name, j, k); }
      assert c in taken - tried;
      tried := tried + {c};
      k := k + 1;
    }
  }

  // ---- which outside paths are kept ----

  predicate Within(child: seq<string>, parent: seq<string>) {
    parent <= child
  }

  /** The outside paths, shallowest first, are kept unless they lie in the wrapper, in one already kept, or
    * nothing of them can be copied. No kept path lies within another, and every path that was found lies in
    * the wrapper, in a kept path, or could not be copied. */
  method SelectExternalRoots(found: seq<seq<string>>, wrapper: seq<string>, copyable: seq<string> -> bool)
    returns (kept: seq<seq<string>>)
    requires forall i, k :: 0 <= i < k < |found| ==> |found[i]| <= |found[k]| && found[i] != found[k]
    ensures forall p :: p in kept ==> p in found && copyable(p) && !Within(p, wrapper)
    ensures Apart(kept)
    ensures forall p :: p in found ==> Accounted(p, kept, wrapper, copyable)
  {
    hide Within;
    kept := [];
    for n := 0 to |found|
      invariant forall p :: p in kept ==> p in found[..n] && copyable(p) && !Within(p, wrapper)
      invariant Apart(kept)
      invariant forall i :: 0 <= i < n ==> Accounted(found[i], kept, wrapper, copyable)
    {
      var p := found[n];
      assert found[..n + 1] == found[..n] + [p];
      if Within(p, wrapper) { continue; }
      var covered := CoveredBy(p, kept);
      if covered { continue; }
      if !copyable(p) { continue; }
      forall q | q in kept ensures !Within(q, p) {
        NotInside(found, n, q);
      }
      KeepOne(found, n, kept, wrapper, copyable);
      kept := kept + [p];
    }
  }

  /** No path of the list lies within another. */
  predicate Apart(kept: seq<seq<string>>) {
    forall i, k :: 0 <= i < |kept| && 0 <= k < |kept| && i != k ==> !Within(kept[i], kept[k])
  }

  predicate Accounted(p: seq<string>, kept: seq<seq<string>>, wrapper: seq<string>, copyable: seq<string> -> bool) {
    Within(p, wrapper) || !copyable(p) || exists q :: q in kept && Within(p, q)
  }

  method CoveredBy(p: seq<string>, kept: seq<seq<string>>) returns (covered: bool)
    ensures covered <==> exists q :: q in kept && Within(p, q)
  {
    for i := 0 to |kept|
      invariant forall k :: 0 <= k < i ==> !Within(p, kept[k])
    {
      if Within(p, kept[i]) { return true; }
    }
    return false;
  }

  lemma KeepOne(found: seq<seq<string>>, n: nat, kept: seq<seq<string>>, wrapper: seq<string>,
                copyable: seq<string> -> bool)
    requires n < |found| && Apart(kept) && forall i :: 0 <= i < n ==> Accounted(found[i], kept, wrapper, copyable)
    requires forall q :: q in kept ==> !Within(q, found[n]) && !Within(found[n], q)
    ensures Apart(kept + [found[n]])
    ensures forall i :: 0 <= i <= n ==> Accounted(found[i], kept + [found[n]], wrapper, copyable)
  {
    var after := kept + [found[n]];
    assert found[n] in after && Within(found[n], found[n]);
    hide Within;
    forall i | 0 <= i < n ensures Accounted(found[i], after, wrapper, copyable) {
      assert forall q :: q in kept ==> q in after;
    }
  }

  lemma NotInside(found: seq<seq<string>>, n: nat, q: seq<string>)
    requires n < |found| && q in found[..n]
    requires forall i, k :: 0 <= i < k < |found| ==> |found[i]| <= |found[k]| && found[i] != found[k]
    ensures !Within(q, found[n])
  {
    var i :| 0 <= i < n && found[i] == q;
  }
}
