/** When the validator accepts a manifest, said of the items and the files alone, and what it reports when one item
  * of an accepted manifest is altered. */
module ArtifactFacts {
  import opened Json
  import opened PosixPath
  import opened ArtifactOrder
  import opened Artifacts
  import opened ArtifactImport
  import ContentDigest

  /** The item describes the file: its path, its size and its hash. */
  predicate Describes(sha: ContentDigest.Hash, item: Json, p: seq<string>, t: Tree) {
    && RetainedFile(t, p) && PathOf(item) == Slashed(p) && Get(item, "sizeBytes") == Int(|t[p].content|)
    && Get(item, "sha256") == Str(ContentDigest.HexDigest(sha(t[p].content)))
  }

  /** A list of well-formed items in strict order of their paths. */
  ghost predicate GoodList(retained: Json) {
    && retained.Arr? && (forall i :: 0 <= i < |retained.items| ==> GoodItem(retained.items[i]))
    && forall i, k :: 0 <= i < k < |retained.items| ==> Less(PathOf(retained.items[i]), PathOf(retained.items[k]))
  }

  ghost predicate Covers(sha: ContentDigest.Hash, items: seq<Json>, t: Tree) {
    && (forall i :: 0 <= i < |items| ==> Described(sha, items[i], t))
    && forall p :: RetainedFile(t, p) ==> Mentioned(items, p)
  }

  ghost predicate Described(sha: ContentDigest.Hash, item: Json, t: Tree) {
    exists p :: Describes(sha, item, p, t)
  }

  ghost predicate Mentioned(items: seq<Json>, p: seq<string>) {
    exists i :: 0 <= i < |items| && PathOf(items[i]) == Slashed(p)
  }

  lemma IncreasingSame(items: seq<Json>)
    ensures Increasing(Paths(items)) <==> forall i, k :: 0 <= i < k < |items| ==>
            Less(PathOf(items[i]), PathOf(items[k]))
  {
    hide PathOf, Less;
    var paths := Paths(items);
    if Increasing(paths) {
      forall i, k | 0 <= i < k < |items| ensures Less(PathOf(items[i]), PathOf(items[k])) {
        assert Less(paths[i], paths[k]);
      }
    }
  }

  lemma ListRead(retained: Json)
    ensures !Cause(retained, map[], true, RetainedFilesInvalid) <==> GoodList(retained)
    ensures GoodList(retained) ==> ReadItems(retained) == retained.items
  {
    hide GoodItem, PathOf, Less;
    if retained.Arr? {
      var items := retained.items;
      if GoodCount(items) == |items| {
        assert items[..|items|] == items;
        assert ReadItems(retained) == items;
        IncreasingSame(items);
      } else {
        assert !GoodItem(items[GoodCount(items)]);
      }
    }
  }

  lemma LessDistinct(items: seq<Json>)
    requires forall i, k :: 0 <= i < k < |items| ==> Less(PathOf(items[i]), PathOf(items[k]))
    ensures forall i, k :: 0 <= i < k < |items| ==> Paths(items)[i] != Paths(items)[k]
  {
    hide PathOf, Less;
    forall i, k | 0 <= i < k < |items| ensures Paths(items)[i] != Paths(items)[k] {
      if PathOf(items[i]) == PathOf(items[k]) { LessIrreflexive(PathOf(items[i])); }
    }
  }

  /** The dict of a good list: one entry per item, under its path. */
  ghost predicate ListDict(items: seq<Json>, m: map<string, Json>) {
    && (forall k :: k in m ==> exists i :: 0 <= i < |items| && PathOf(items[i]) == k)
    && forall i :: 0 <= i < |items| ==> PathOf(items[i]) in m && m[PathOf(items[i])] == items[i]
  }

  lemma ListIndexed(items: seq<Json>)
    requires forall i, k :: 0 <= i < k < |items| ==> Less(PathOf(items[i]), PathOf(items[k]))
    ensures ListDict(items, Index(Paths(items), items))
  {
    LessDistinct(items);
    hide PathOf, Less, Index;
    var keys := Paths(items);
    IndexKeys(keys, items);
    forall i | 0 <= i < |items|
      ensures PathOf(items[i]) in Index(keys, items) && Index(keys, items)[PathOf(items[i])] == items[i]
    {
      IndexAt(keys, items, i);
    }
    forall k | k in Index(keys, items) ensures exists i :: 0 <= i < |items| && PathOf(items[i]) == k {
      var i :| 0 <= i < |keys| && keys[i] == k;
    }
  }

  lemma ItemOf(items: seq<Json>, m: map<string, Json>, k: string) returns (i: nat)
    requires ListDict(items, m) && k in m
    ensures i < |items| && PathOf(items[i]) == k && m[k] == items[i]
  {
    hide PathOf;
    i :| 0 <= i < |items| && PathOf(items[i]) == k;
  }

  lemma ItemIn(items: seq<Json>, m: map<string, Json>, i: nat)
    requires ListDict(items, m) && i < |items|
    ensures PathOf(items[i]) in m && m[PathOf(items[i])] == items[i]
  {
    hide PathOf;
  }

  lemma FileOf(sha: ContentDigest.Hash, t: Tree, actual: map<string, Json>, k: string) returns (p: seq<string>)
    requires Indexes(sha, t, actual) && k in actual
    ensures RetainedFile(t, p) && Slashed(p) == k
  {
    hide Slashed, FileRecord, RetainedFile;
    p :| RetainedFile(t, p) && Slashed(p) == k;
  }

  lemma FileIndexed(sha: ContentDigest.Hash, t: Tree, actual: map<string, Json>, p: seq<string>)
    requires Indexes(sha, t, actual) && RetainedFile(t, p)
    ensures Slashed(p) in actual && p in t && t[p].File? && actual[Slashed(p)] == FileRecord(sha, p, t[p].content)
  {
    hide Slashed, FileRecord;
  }

  // ---- acceptance ----

  /** No cause is left, group by group. */
  lemma AcceptsParts(sha: ContentDigest.Hash, retained: Json, t: Tree, lt: seq<seq<string>>)
    ensures Accepts(sha, retained, t, lt) <==>
              && GoodList(retained) && Supported(t)
              && SameDicts(Actual(sha, t, lt), Index(Paths(retained.items), retained.items))
  {
    ListRead(retained);
    hide Actual, GoodList, Index, Paths, ReadItems, GoodCount, Increasing, Differ;
    var actual := Actual(sha, t, lt);
    if Accepts(sha, retained, t, lt) {
      assert !Cause(retained, actual, Supported(t), RetainedFilesInvalid);
      assert !Cause(retained, actual, Supported(t), ArtifactTreeUnreadable);
      assert !Cause(retained, actual, Supported(t), ArtifactFileSetMismatch);
      assert !Cause(retained, actual, Supported(t), ArtifactSizeMismatch);
      assert !Cause(retained, actual, Supported(t), ArtifactHashMismatch);
    }
  }

  predicate SameDicts(actual: map<string, Json>, expected: map<string, Json>) {
    actual.Keys == expected.Keys && !Differ(actual, expected, "sizeBytes") && !Differ(actual, expected, "sha256")
  }

  /** The validator accepts exactly when the manifest is a good list, the tree holds nothing but files and directories,
    * and the items are the retained files one for one, with their sizes and hashes. */
  lemma AcceptsExactly(sha: ContentDigest.Hash, retained: Json, t: Tree, lt: seq<seq<string>>)
    requires WellNamed(t) && Lists(t, lt)
    ensures Accepts(sha, retained, t, lt) <==> GoodList(retained) && Supported(t) && Covers(sha, retained.items, t)
  {
    hide *;
    AcceptsParts(sha, retained, t, lt);
    if GoodList(retained) && Supported(t) {
      ActualIndexed(sha, t, lt);
      ListOrdered(retained);
      ListIndexed(retained.items);
      DictsSame(sha, retained.items, t, Actual(sha, t, lt));
    }
  }

  lemma ListOrdered(retained: Json)
    requires GoodList(retained)
    ensures retained.Arr?
    ensures forall i, k :: 0 <= i < k < |retained.items| ==> Less(PathOf(retained.items[i]), PathOf(retained.items[k]))
  {
    hide GoodItem, PathOf, Less;
  }

  lemma DictsSame(sha: ContentDigest.Hash, items: seq<Json>, t: Tree, actual: map<string, Json>)
    requires Indexes(sha, t, actual) && ListDict(items, Index(Paths(items), items))
    ensures SameDicts(actual, Index(Paths(items), items)) <==> Covers(sha, items, t)
  {
    var m := Index(Paths(items), items);
    hide *;
    if SameDicts(actual, m) { DictsCover(sha, items, t, actual, m); }
    if Covers(sha, items, t) { CoversDicts(sha, items, t, actual, m); }
  }

  lemma DictsCover(sha: ContentDigest.Hash, items: seq<Json>, t: Tree, actual: map<string, Json>, m: map<string, Json>)
    requires Indexes(sha, t, actual) && ListDict(items, m) && SameDicts(actual, m)
    ensures Covers(sha, items, t)
  {
    assert actual.Keys == m.Keys;
    hide Indexes, ListDict, SameDicts, PathOf, RetainedFile, Describes, FileRecord;
    forall i | 0 <= i < |items| ensures Described(sha, items[i], t) {
      ItemIn(items, m, i);
      var p := FileOf(sha, t, actual, PathOf(items[i]));
      EntryDescribes(sha, items[i], p, t, actual, m);
    }
    forall p | RetainedFile(t, p) ensures Mentioned(items, p) {
      FileIndexed(sha, t, actual, p);
      var i := ItemOf(items, m, Slashed(p));
    }
  }

  lemma EntryDescribes(sha: ContentDigest.Hash, item: Json, p: seq<string>, t: Tree, actual: map<string, Json>,
                       m: map<string, Json>)
    requires RetainedFile(t, p) && Slashed(p) == PathOf(item) && PathOf(item) in m && m[PathOf(item)] == item
    requires SameDicts(actual, m) && Indexes(sha, t, actual)
    ensures Describes(sha, item, p, t)
  {
    FileIndexed(sha, t, actual, p);
    RecordFields(sha, p, t[p].content);
    hide PathOf, Slashed, FileRecord, Get, ContentDigest.HexDigest, Indexes;
    assert !Differ(actual, m, "sizeBytes") && !Differ(actual, m, "sha256");
  }

  lemma CoversDicts(sha: ContentDigest.Hash, items: seq<Json>, t: Tree, actual: map<string, Json>, m: map<string, Json>)
    requires Indexes(sha, t, actual) && Covers(sha, items, t) && ListDict(items, m)
    ensures SameDicts(actual, m)
  {
    hide Indexes, ListDict, PathOf, Slashed, FileRecord, Get, Covers, RetainedFile, Describes;
    forall k | k in m
      ensures k in actual && Get(actual[k], "sizeBytes") == Get(m[k], "sizeBytes")
              && Get(actual[k], "sha256") == Get(m[k], "sha256")
    {
      var i := ItemOf(items, m, k);
      var p := FileOfItem(sha, items, t, i);
      DescribedPath(sha, items[i], p, t);
      FileIndexed(sha, t, actual, p);
    }
    forall k | k in actual ensures k in m {
      var p := FileOf(sha, t, actual, k);
      var i := ItemOfFile(sha, items, t, p);
      ItemIn(items, m, i);
    }
    assert actual.Keys == m.Keys;
    assert !Differ(actual, m, "sizeBytes") && !Differ(actual, m, "sha256");
  }

  lemma FileOfItem(sha: ContentDigest.Hash, items: seq<Json>, t: Tree, i: nat) returns (p: seq<string>)
    requires Covers(sha, items, t) && i < |items|
    ensures Describes(sha, items[i], p, t)
  {
    hide PathOf, Slashed, RetainedFile, Describes;
    p :| Describes(sha, items[i], p, t);
  }

  lemma ItemOfFile(sha: ContentDigest.Hash, items: seq<Json>, t: Tree, p: seq<string>) returns (i: nat)
    requires Covers(sha, items, t) && RetainedFile(t, p)
    ensures i < |items| && PathOf(items[i]) == Slashed(p)
  {
    assert Mentioned(items, p) by { hide PathOf, RetainedFile, Describes, Mentioned; }
    hide PathOf, RetainedFile, Describes, Covers;
    i :| 0 <= i < |items| && PathOf(items[i]) == Slashed(p);
  }

  lemma DescribedPath(sha: ContentDigest.Hash, item: Json, p: seq<string>, t: Tree)
    requires Describes(sha, item, p, t)
    ensures RetainedFile(t, p) && p in t && t[p].File? && Slashed(p) == PathOf(item)
    ensures Get(FileRecord(sha, p, t[p].content), "sizeBytes") == Get(item, "sizeBytes")
    ensures Get(FileRecord(sha, p, t[p].content), "sha256") == Get(item, "sha256")
  {
    RecordFields(sha, p, t[p].content);
    hide PathOf, Slashed, FileRecord, Get, ContentDigest.HexDigest;
  }

  // ---- one altered item ----

  datatype Field = SizeField | HashField

  function Key(f: Field): string { if f.SizeField? then "sizeBytes" else "sha256" }
  function CodeOf(f: Field): Code { if f.SizeField? then ArtifactSizeMismatch else ArtifactHashMismatch }

  predicate Plausible(f: Field, v: Json) {
    if f.SizeField? then v.Int? && v.n >= 0 else ValidSha256(v)
  }

  function WithField(item: Json, f: Field, v: Json): Json
    requires item.Obj?
  {
    Obj(item.fields[Key(f) := v])
  }

  lemma FieldPut(item: Json, f: Field, v: Json)
    requires GoodItem(item) && Plausible(f, v)
    ensures item.Obj?
    ensures var j := WithField(item, f, v);
            && GoodItem(j) && PathOf(j) == PathOf(item) && Get(j, Key(f)) == v
            && forall g: Field :: g != f ==> Get(j, Key(g)) == Get(item, Key(g))
  {
    assert |"path"| == 4 && |"sizeBytes"| == 9 && |"sha256"| == 6;
    var j := WithField(item, f, v);
    assert Get(j, "path") == Get(item, "path") && Get(j, Key(f)) == v;
    hide Safe, ValidSha256;
  }

  /** Reading a good list: its causes are those of the two dicts. */
  lemma GoodCauses(items: seq<Json>, actual: map<string, Json>)
    requires GoodList(Arr(items))
    ensures var m := Index(Paths(items), items);
            && ListDict(items, m) && !Cause(Arr(items), actual, true, RetainedFilesInvalid)
            && !Cause(Arr(items), actual, true, ArtifactTreeUnreadable)
            && (Cause(Arr(items), actual, true, ArtifactFileSetMismatch) <==> actual.Keys != m.Keys)
            && (Cause(Arr(items), actual, true, ArtifactSizeMismatch) <==>
                  actual.Keys == m.Keys && Differ(actual, m, "sizeBytes"))
            && (Cause(Arr(items), actual, true, ArtifactHashMismatch) <==>
                  actual.Keys == m.Keys && Differ(actual, m, "sha256"))
  {
    ListOrdered(Arr(items));
    ListIndexed(items);
    ListRead(Arr(items));
    hide GoodList, Index, Paths, ReadItems, GoodCount, Increasing, Differ, ListDict;
  }

  /** The validator reports just this failure, or none. */
  ghost predicate OnlyCause(retained: Json, actual: map<string, Json>, supported: bool, code: Code, wrong: bool) {
    forall c: Code :: Cause(retained, actual, supported, c) <==> c == code && wrong
  }

  /** Another size or another hash in one item of an accepted manifest is reported as just that. */
  lemma ItemAltered(sha: ContentDigest.Hash, items: seq<Json>, t: Tree, lt: seq<seq<string>>, i: nat, f: Field, v: Json)
    requires Accepts(sha, Arr(items), t, lt) && i < |items| && Plausible(f, v)
    ensures items[i].Obj?
    ensures OnlyCause(Arr(items[i := WithField(items[i], f, v)]), Actual(sha, t, lt), Supported(t), CodeOf(f),
                      v != Get(items[i], Key(f)))
  {
    AcceptsParts(sha, Arr(items), t, lt);
    assert GoodItem(items[i]);
    FieldPut(items[i], f, v);
    var item := WithField(items[i], f, v);
    var others, actual := items[i := item], Actual(sha, t, lt);
    StillGood(items, i, item);
    GoodCauses(items, actual);
    GoodCauses(others, actual);
    hide *;
    OneDiffers(items, i, item, f, v, actual, Index(Paths(items), items), Index(Paths(others), others));
    AlteredCauses(Arr(others), actual, Index(Paths(others), others), f, v != Get(items[i], Key(f)));
  }

  lemma StillGood(items: seq<Json>, i: nat, item: Json)
    requires GoodList(Arr(items)) && i < |items| && GoodItem(item) && PathOf(item) == PathOf(items[i])
    ensures GoodList(Arr(items[i := item]))
  {
    hide GoodItem, PathOf, Less;
    var others := items[i := item];
    assert forall k :: 0 <= k < |items| ==> PathOf(others[k]) == PathOf(items[k]);
  }

  lemma OneDiffers(items: seq<Json>, i: nat, item: Json, f: Field, v: Json, actual: map<string, Json>,
                   m: map<string, Json>, n: map<string, Json>)
    requires i < |items| && PathOf(item) == PathOf(items[i]) && Get(item, Key(f)) == v
             && forall g: Field :: g != f ==> Get(item, Key(g)) == Get(items[i], Key(g))
    requires ListDict(items, m) && ListDict(items[i := item], n) && SameDicts(actual, m)
    ensures actual.Keys == n.Keys && (Differ(actual, n, Key(f)) <==> v != Get(items[i], Key(f)))
    ensures forall g: Field :: g != f ==> !Differ(actual, n, Key(g))
  {
    KeysAgree(items, i, item, m, n);
    assert actual.Keys == m.Keys;
    hide PathOf, Get, ListDict, SameDicts, Key;
    forall g: Field | g != f ensures !Differ(actual, n, Key(g)) {
      forall k | k in n ensures Get(actual[k], Key(g)) == Get(n[k], Key(g)) {
        NoDifference(actual, m, k, g);
        EntryAfter(items, i, item, m, n, k);
      }
    }
    if v == Get(items[i], Key(f)) {
      forall k | k in n ensures Get(actual[k], Key(f)) == Get(n[k], Key(f)) {
        NoDifference(actual, m, k, f);
        EntryAfter(items, i, item, m, n, k);
      }
    } else {
      ItemIn(items, m, i);
      NoDifference(actual, m, PathOf(item), f);
      ItemIn(items[i := item], n, i);
    }
  }

  lemma EntryAfter(items: seq<Json>, i: nat, item: Json, m: map<string, Json>, n: map<string, Json>, k: string)
    requires i < |items| && PathOf(item) == PathOf(items[i]) && ListDict(items, m) && ListDict(items[i := item], n)
    requires k in n && k in m
    ensures n[k] == m[k] || (n[k] == item && m[k] == items[i])
  {
    hide PathOf, ListDict;
    var j := ItemOf(items[i := item], n, k);
    assert PathOf(items[j]) == k;
    ItemIn(items, m, j);
  }

  lemma KeysAgree(items: seq<Json>, i: nat, item: Json, m: map<string, Json>, n: map<string, Json>)
    requires i < |items| && PathOf(item) == PathOf(items[i]) && ListDict(items, m) && ListDict(items[i := item], n)
    ensures m.Keys == n.Keys
  {
    hide PathOf, ListDict;
    var others := items[i := item];
    forall k ensures k in m <==> k in n {
      if k in m {
        var j := ItemOf(items, m, k);
        ItemIn(others, n, j);
        assert PathOf(others[j]) == k;
      }
      if k in n {
        var j := ItemOf(others, n, k);
        ItemIn(items, m, j);
        assert PathOf(items[j]) == k;
      }
    }
  }

  lemma NoDifference(actual: map<string, Json>, m: map<string, Json>, k: string, g: Field)
    requires SameDicts(actual, m) && k in m
    ensures k in actual && Get(actual[k], Key(g)) == Get(m[k], Key(g))
  {
    hide Get;
    assert k in actual.Keys;
  }

  lemma AlteredCauses(retained: Json, actual: map<string, Json>, n: map<string, Json>, f: Field, wrong: bool)
    requires !Cause(retained, actual, true, RetainedFilesInvalid)
             && !Cause(retained, actual, true, ArtifactTreeUnreadable)
    requires Cause(retained, actual, true, ArtifactFileSetMismatch) <==> actual.Keys != n.Keys
    requires Cause(retained, actual, true, ArtifactSizeMismatch) <==>
               actual.Keys == n.Keys && Differ(actual, n, "sizeBytes")
    requires Cause(retained, actual, true, ArtifactHashMismatch) <==>
               actual.Keys == n.Keys && Differ(actual, n, "sha256")
    requires actual.Keys == n.Keys && (Differ(actual, n, Key(f)) <==> wrong)
             && forall g: Field :: g != f ==> !Differ(actual, n, Key(g))
    ensures OnlyCause(retained, actual, true, CodeOf(f), wrong)
  {
    hide Cause, Differ;
    assert Key(SizeField) == "sizeBytes" && Key(HashField) == "sha256";
    forall c: Code ensures Cause(retained, actual, true, c) <==> c == CodeOf(f) && wrong {
      match c
      case RetainedFilesInvalid =>
      case ArtifactTreeUnreadable =>
      case ArtifactFileSetMismatch =>
      case ArtifactSizeMismatch =>
      case ArtifactHashMismatch =>
    }
  }
}
