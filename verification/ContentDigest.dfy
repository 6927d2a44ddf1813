/** The digest that binds a workspace's tracked files: a format tag, then for each file its path, mode
  * and content hash, each with an eight-octet length in front. */
module ContentDigest {
  import opened Wrappers
  import opened Octets
  import PosixPath

  const MAX_LENGTH: nat := 0x1_0000_0000_0000_0000

  /** An octet string whose length fits eight octets. */
  type Field = x: seq<byte> | |x| < MAX_LENGTH witness []

  /** A 32-octet hash. */
  type Sha256 = d: seq<byte> | |d| == 32 witness seq(32, _ => 0)
  type Hash = seq<byte> -> Sha256

  /** One tracked file as it enters the digest. */
  datatype Entry = Entry(path: Field, mode: Field, contentHash: Field)

  /** to_bytes(8, "big") */
  function LengthBytes(n: nat): (r: seq<byte>)
    requires n < MAX_LENGTH
    ensures |r| == 8
  {
    U32Bytes(n / 0x1_0000_0000) + U32Bytes(n % 0x1_0000_0000)
  }

  function Item(x: Field): (r: seq<byte>)
    ensures |r| == 8 + |x|
  {
    LengthBytes(|x|) + x
  }

  function EntryBytes(e: Entry): (r: seq<byte>)
    ensures |r| >= 24
  {
    Item(e.path) + Item(e.mode) + Item(e.contentHash)
  }

  function EntriesBytes(es: seq<Entry>): seq<byte> {
    if es == [] then [] else EntryBytes(es[0]) + EntriesBytes(es[1..])
  }

  /** What is hashed: the tag, a zero octet, and the entries. */
  function Preimage(tag: seq<byte>, es: seq<Entry>): seq<byte> {
    tag + [0] + EntriesBytes(es)
  }

  // ---- the preimage determines the file list ----

  lemma LengthBytesInjective(a: nat, b: nat)
    requires a < MAX_LENGTH && b < MAX_LENGTH && LengthBytes(a) == LengthBytes(b)
    ensures a == b
  {
    var x, y := LengthBytes(a), LengthBytes(b);
    assert x[..4] == U32Bytes(a / 0x1_0000_0000) && y[..4] == U32Bytes(b / 0x1_0000_0000);
    assert x[4..] == U32Bytes(a % 0x1_0000_0000) && y[4..] == U32Bytes(b % 0x1_0000_0000);
    assert U32(x[..4], 0) == U32(y[..4], 0) && U32(x[4..], 0) == U32(y[4..], 0);
  }

  /** An item followed by anything can be cut off in one way only. */
  lemma ItemSplits(x: Field, y: Field, r: seq<byte>, s: seq<byte>)
    requires Item(x) + r == Item(y) + s
    ensures x == y && r == s
  {
    hide LengthBytes;
    var a, b := Item(x) + r, Item(y) + s;
    assert a[..8] == LengthBytes(|x|) && b[..8] == LengthBytes(|y|);
    LengthBytesInjective(|x|, |y|);
    assert a[8..8 + |x|] == x && b[8..8 + |y|] == y;
    assert a[8 + |x|..] == r && b[8 + |y|..] == s;
  }

  lemma EntrySplits(e: Entry, f: Entry, r: seq<byte>, s: seq<byte>)
    requires EntryBytes(e) + r == EntryBytes(f) + s
    ensures e == f && r == s
  {
    hide Item;
    var e1, f1 := Item(e.contentHash) + r, Item(f.contentHash) + s;
    var e2, f2 := Item(e.mode) + e1, Item(f.mode) + f1;
    assert EntryBytes(e) + r == Item(e.path) + e2;
    assert EntryBytes(f) + s == Item(f.path) + f2;
    ItemSplits(e.path, f.path, e2, f2);
    ItemSplits(e.mode, f.mode, e1, f1);
    ItemSplits(e.contentHash, f.contentHash, r, s);
  }

  lemma {:induction false} EntriesInjective(a: seq<Entry>, b: seq<Entry>)
    requires EntriesBytes(a) == EntriesBytes(b)
    ensures a == b
    decreases |a|
  {
    hide EntryBytes;
    if a != [] && b != [] {
      EntrySplits(a[0], b[0], EntriesBytes(a[1..]), EntriesBytes(b[1..]));
      EntriesInjective(a[1..], b[1..]);
      assert a == [a[0]] + a[1..] && b == [b[0]] + b[1..];
    }
  }

  /** Equal preimages come from equal file lists. */
  lemma PreimageInjective(tag: seq<byte>, a: seq<Entry>, b: seq<Entry>)
    requires Preimage(tag, a) == Preimage(tag, b)
    ensures a == b
  {
    hide EntriesBytes;
    var n := |tag| + 1;
    assert Preimage(tag, a)[n..] == EntriesBytes(a) && Preimage(tag, b)[n..] == EntriesBytes(b);
    EntriesInjective(a, b);
  }

  // ---- the summary of a tree ----

  /** A path component list, and what lies there. */
  type Parts = seq<seq<byte>>
  datatype Node = Link(destination: seq<byte>) | Regular(executable: bool, content: seq<byte>) | Special
  type Tree = map<Parts, Node>

  const SLASH: byte := 47
  const DOT: byte := 46

  function PartsOf(path: seq<byte>): Parts {
    PosixPath.Components(path, SLASH, DOT, [])
  }

  predicate SafePath(path: seq<byte>) {
    PosixPath.SafeOver(path, SLASH, DOT)
  }

  const MODE_LINK: seq<byte> := [49, 50, 48, 48, 48, 48]
  const MODE_EXECUTABLE: seq<byte> := [49, 48, 48, 55, 53, 53]
  const MODE_PLAIN: seq<byte> := [49, 48, 48, 54, 52, 52]

  function ModeOf(n: Node): seq<byte> {
    match n
    case Link(_) => MODE_LINK
    case Regular(executable, _) => if executable then MODE_EXECUTABLE else MODE_PLAIN
    case Special => []
  }

  /** The octets of a text of ASCII characters. */
  function Ascii(s: string): seq<byte>
    requires forall i :: 0 <= i < |s| ==> s[i] < 128 as char
  {
    seq(|s|, i requires 0 <= i < |s| => s[i] as int)
  }

  /** git's modes for a link, a program and a plain file. */
  lemma ModesAreGits(destination: seq<byte>, content: seq<byte>)
    ensures ModeOf(Link(destination)) == Ascii("120000") && ModeOf(Regular(true, content)) == Ascii("100755")
            && ModeOf(Regular(false, content)) == Ascii("100644")
  {
    assert Ascii("120000") == MODE_LINK;
    assert Ascii("100755") == MODE_EXECUTABLE;
    assert Ascii("100644") == MODE_PLAIN;
  }

  function ContentOf(n: Node): seq<byte> {
    match n
    case Link(destination) => destination
    case Regular(_, content) => content
    case Special => []
  }

  function NodeAt(tree: Tree, path: Field): Node {
    if PartsOf(path) in tree then tree[PartsOf(path)] else Special
  }

  /** A path that can be summarised: safe, present, a link or a regular file. */
  predicate Trackable(tree: Tree, path: Field) {
    SafePath(path) && !NodeAt(tree, path).Special?
  }

  predicate AllTrackable(tree: Tree, paths: seq<Field>) {
    forall p :: p in paths ==> Trackable(tree, p)
  }

  function EntryFor(sha: Hash, tree: Tree, path: Field): Entry
    requires Trackable(tree, path)
  {
    var n := NodeAt(tree, path);
    Entry(path, ModeOf(n), sha(ContentOf(n)))
  }

  function EntriesFor(sha: Hash, tree: Tree, paths: seq<Field>): (es: seq<Entry>)
    requires AllTrackable(tree, paths)
    ensures |es| == |paths|
    ensures forall i :: 0 <= i < |paths| ==> es[i] == EntryFor(sha, tree, paths[i])
  {
    seq(|paths|, i requires 0 <= i < |paths| => EntryFor(sha, tree, paths[i]))
  }

  datatype Summary = Summary(fileCount: nat, digest: Sha256)
  /** The summary of a tree; it raises on the first path that cannot be tracked. */
  function Summarize(sha: Hash, tag: seq<byte>, tree: Tree, paths: seq<Field>): Result<Summary> {
    if AllTrackable(tree, paths)
    then Returned(Summary(|paths|, sha(Preimage(tag, EntriesFor(sha, tree, paths))))) else Raised
  }

  /** The committed index the local copy also checks each file against. */
  datatype IndexEntry = IndexEntry(mode: seq<byte>, oid: seq<byte>)
  datatype Index = Unchecked | Checked(entries: map<Field, IndexEntry>)

  /** One file against its index entry; blobOid is git's object id, absent for unknown id lengths. */
  predicate MatchesIndex(tree: Tree, path: Field, index: Index, blobOid: (seq<byte>, nat) -> Result<seq<byte>>) {
    index.Checked? ==>
      && path in index.entries && ModeOf(NodeAt(tree, path)) == index.entries[path].mode
      && blobOid(ContentOf(NodeAt(tree, path)), |index.entries[path].oid|) == Returned(index.entries[path].oid)
  }

  /** The copy of the digest that runs on the target, fed step by step. */
  method RemoteContentSummary(sha: Hash, tag: seq<byte>, tree: Tree, paths: seq<Field>) returns (r: Result<Summary>)
    ensures r == Summarize(sha, tag, tree, paths)
  {
    hide ModeOf, ContentOf, Item, SafePath;
    var fed := tag + [0];
    for i := 0 to |paths|
      invariant AllTrackable(tree, paths[..i])
      invariant fed == Preimage(tag, EntriesFor(sha, tree, paths[..i]))
    {
      var path := paths[i];
      assert path in paths && paths[..i + 1] == paths[..i] + [path];
      if !SafePath(path) { return Raised; }
      var n := NodeAt(tree, path);
      if n.Special? { return Raised; }
      FeedOne(sha, tag, tree, paths[..i], path);
      fed := fed + Item(path) + Item(ModeOf(n)) + Item(sha(ContentOf(n)));
    }
    assert paths[..|paths|] == paths;
    return Returned(Summary(|paths|, sha(fed)));
  }

  /** The local copy, which may also hold each file against the committed index. Where it succeeds it
    * computes what the remote copy computes on the same tree. */
  method TrackedContentSummary(sha: Hash, tag: seq<byte>, tree: Tree, paths: seq<Field>, index: Index,
                               blobOid: (seq<byte>, nat) -> Result<seq<byte>>) returns (r: Result<Summary>)
    ensures r == if forall p :: p in paths ==> MatchesIndex(tree, p, index, blobOid)
                 then Summarize(sha, tag, tree, paths) else Raised
  {
    hide Trackable, MatchesIndex, ModeOf, ContentOf, Item;
    var fed := tag + [0];
    for i := 0 to |paths|
      invariant AllTrackable(tree, paths[..i]) && forall p :: p in paths[..i] ==> MatchesIndex(tree, p, index, blobOid)
      invariant fed == Preimage(tag, EntriesFor(sha, tree, paths[..i]))
    {
      var path := paths[i];
      assert paths[..i + 1] == paths[..i] + [path];
      if !Trackable(tree, path) || !MatchesIndex(tree, path, index, blobOid) {
        assert path in paths;
        return Raised;
      }
      FeedOne(sha, tag, tree, paths[..i], path);
      var n := NodeAt(tree, path);
      fed := fed + Item(path) + Item(ModeOf(n)) + Item(sha(ContentOf(n)));
    }
    assert paths[..|paths|] == paths;
    return Returned(Summary(|paths|, sha(fed)));
  }

  lemma {:induction false} BytesSnoc(es: seq<Entry>, e: Entry)
    ensures EntriesBytes(es + [e]) == EntriesBytes(es) + EntryBytes(e)
  {
    hide EntryBytes;
    if es == [] {
      assert [] + [e] == [e] && [e][1..] == [];
    } else {
      assert (es + [e])[1..] == es[1..] + [e];
      BytesSnoc(es[1..], e);
    }
  }

  lemma FeedOne(sha: Hash, tag: seq<byte>, tree: Tree, paths: seq<Field>, path: Field)
    requires AllTrackable(tree, paths) && Trackable(tree, path)
    ensures AllTrackable(tree, paths + [path])
    ensures var n := NodeAt(tree, path);
            Preimage(tag, EntriesFor(sha, tree, paths + [path]))
            == Preimage(tag, EntriesFor(sha, tree, paths)) + Item(path) + Item(ModeOf(n)) + Item(sha(ContentOf(n)))
  {
    hide Trackable, ModeOf, ContentOf, Item, EntriesBytes;
    var e := EntryFor(sha, tree, path);
    assert EntriesFor(sha, tree, paths + [path]) == EntriesFor(sha, tree, paths) + [e];
    BytesSnoc(EntriesFor(sha, tree, paths), e);
  }

  // ---- equal digests mean equal trees ----

  /** No two of these inputs share a hash. */
  ghost predicate CollisionFree(sha: Hash, inputs: set<seq<byte>>) {
    forall x, y :: x in inputs && y in inputs && sha(x) == sha(y) ==> x == y
  }

  /** Everything a summary hashes. */
  ghost function Inputs(sha: Hash, tag: seq<byte>, tree: Tree, paths: seq<Field>): set<seq<byte>>
    requires AllTrackable(tree, paths)
  {
    {Preimage(tag, EntriesFor(sha, tree, paths))} + set p | p in paths :: ContentOf(NodeAt(tree, p))
  }

  lemma NodeDetermined(a: Node, b: Node)
    requires !a.Special? && !b.Special? && ModeOf(a) == ModeOf(b) && ContentOf(a) == ContentOf(b)
    ensures a == b
  {
    assert MODE_LINK[1] != MODE_PLAIN[1] && MODE_LINK[1] != MODE_EXECUTABLE[1] && MODE_PLAIN[3] != MODE_EXECUTABLE[3];
  }

  /** Under a hash without collisions among the inputs at hand, equal digests mean the same paths with
    * the same kinds, modes and contents. */
  lemma EqualDigestsMeanEqualTrees(sha: Hash, tag: seq<byte>, s: Tree, ps: seq<Field>, t: Tree, qs: seq<Field>)
    requires AllTrackable(s, ps) && AllTrackable(t, qs)
    requires CollisionFree(sha, Inputs(sha, tag, s, ps) + Inputs(sha, tag, t, qs))
    requires Summarize(sha, tag, s, ps).value.digest == Summarize(sha, tag, t, qs).value.digest
    ensures ps == qs && forall p :: p in ps ==> NodeAt(s, p) == NodeAt(t, p)
  {
    hide Preimage, ModeOf, ContentOf, NodeAt, SafePath;
    var a, b := EntriesFor(sha, s, ps), EntriesFor(sha, t, qs);
    assert Preimage(tag, a) in Inputs(sha, tag, s, ps) && Preimage(tag, b) in Inputs(sha, tag, t, qs);
    PreimageInjective(tag, a, b);
    forall i | 0 <= i < |ps| ensures ps[i] == qs[i] && NodeAt(s, ps[i]) == NodeAt(t, ps[i]) {
      assert a[i] == EntryFor(sha, s, ps[i]) && b[i] == EntryFor(sha, t, qs[i]);
      assert Trackable(s, ps[i]) && Trackable(t, qs[i]);
      var m, n := NodeAt(s, ps[i]), NodeAt(t, qs[i]);
      assert ContentOf(m) in Inputs(sha, tag, s, ps) && ContentOf(n) in Inputs(sha, tag, t, qs);
      NodeDetermined(m, n);
    }
  }

  // ---- written in hexadecimal ----

  function HexDigit(n: nat): char
    requires n < 16
  {
    if n < 10 then '0' + n as char else 'a' + (n - 10) as char
  }

  function HexDigest(d: seq<byte>): string {
    if d == [] then "" else [HexDigit(d[0] / 16), HexDigit(d[0] % 16)] + HexDigest(d[1..])
  }

  lemma {:induction false} HexInjective(a: seq<byte>, b: seq<byte>)
    requires HexDigest(a) == HexDigest(b)
    ensures a == b
    decreases a
  {
    if a != [] && b != [] {
      var s, t := HexDigest(a), HexDigest(b);
      assert s[0] == t[0] && s[1] == t[1] && s[2..] == HexDigest(a[1..]) && t[2..] == HexDigest(b[1..]);
      HexInjective(a[1..], b[1..]);
      assert a == [a[0]] + a[1..] && b == [b[0]] + b[1..];
    }
  }
}
