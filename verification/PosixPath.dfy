/** Paths as pathlib.PurePosixPath reads and writes them, and Python's order on strings. */
module PosixPath {
  /** The components of a path: empty and "." components disappear. */
  function Components<T(==)>(path: seq<T>, slash: T, dot: T, current: seq<T>): seq<seq<T>>
    decreases path
  {
    if path == [] then Component(current, dot)
    else if path[0] == slash then Component(current, dot) + Components(path[1..], slash, dot, [])
    else Components(path[1..], slash, dot, current + [path[0]])
  }

  function Component<T(==)>(c: seq<T>, dot: T): seq<seq<T>> {
    if c == [] || c == [dot] then [] else [c]
  }

  /** Relative, not empty, and nowhere climbing up. */
  predicate SafeOver<T(==)>(path: seq<T>, slash: T, dot: T) {
    path != [] && path[0] != slash && [dot, dot] !in Components(path, slash, dot, [])
  }

  function Parts(s: string): seq<string> {
    Components(s, '/', '.', [])
  }

  predicate Safe(s: string) {
    SafeOver(s, '/', '.')
  }

  datatype Path = Path(root: string, parts: seq<string>)

  /** Two leading slashes are kept, any other number of them is one. */
  function Parse(s: string): Path {
    var doubled := |s| >= 2 && s[1] == '/' && (|s| == 2 || s[2] != '/');
    Path(if s == "" || s[0] != '/' then "" else if doubled then "//" else "/", Parts(s))
  }

  /** An absolute path on the right replaces the left one. */
  function Join(p: Path, q: Path): Path {
    if q.root != "" then q else Path(p.root, p.parts + q.parts)
  }

  function Slashed(parts: seq<string>): string {
    if parts == [] then "" else if |parts| == 1 then parts[0] else parts[0] + "/" + Slashed(parts[1..])
  }

  function Written(p: Path): string {
    if p.root == "" && p.parts == [] then "." else p.root + Slashed(p.parts)
  }

  /** str(PurePosixPath(base) / s / ...) */
  function Under(base: string, rest: seq<string>): string {
    Written(JoinAll(Parse(base), rest))
  }

  function JoinAll(p: Path, rest: seq<string>): Path
    decreases rest
  {
    if rest == [] then p else JoinAll(Join(p, Parse(rest[0])), rest[1..])
  }

  /** Python's < on strings: code points, a proper prefix first. */
  predicate Less(a: string, b: string) {
    if b == "" then false
    else if a == "" then true
    else a[0] < b[0] || (a[0] == b[0] && Less(a[1..], b[1..]))
  }

  // ---- what a safe path is ----

  /** Two dots stand at i, between the ends of the path or slashes. */
  predicate ClimbsAt<T(==)>(path: seq<T>, slash: T, dot: T, i: int) {
    && 0 <= i && i + 2 <= |path| && path[i] == dot && path[i + 1] == dot
    && (i == 0 || path[i - 1] == slash) && (i + 2 == |path| || path[i + 2] == slash)
  }

  ghost predicate Climbs<T>(path: seq<T>, slash: T, dot: T) {
    exists i :: ClimbsAt(path, slash, dot, i)
  }

  lemma ClimbsAlone<T>(c: seq<T>, slash: T, dot: T)
    requires slash !in c
    ensures Climbs(c, slash, dot) <==> c == [dot, dot]
  {
    assert forall k :: 0 <= k < |c| ==> c[k] != slash;
    if c == [dot, dot] { assert ClimbsAt(c, slash, dot, 0); }
  }

  lemma ClimbsSplit<T>(c: seq<T>, rest: seq<T>, slash: T, dot: T)
    requires slash !in c && slash != dot
    ensures Climbs(c + [slash] + rest, slash, dot) <==> c == [dot, dot] || Climbs(rest, slash, dot)
  {
    var whole, n := c + [slash] + rest, |c| + 1;
    assert forall k :: 0 <= k < |c| ==> whole[k] == c[k] != slash;
    if i :| ClimbsAt(whole, slash, dot, i) {
      if i >= n {
        assert ClimbsAt(rest, slash, dot, i - n);
      } else {
        assert c == [dot, dot];
      }
    }
    if c == [dot, dot] { assert ClimbsAt(whole, slash, dot, 0); }
    if i :| ClimbsAt(rest, slash, dot, i) { assert ClimbsAt(whole, slash, dot, i + n); }
  }

  lemma {:induction false} ComponentsClimb<T>(path: seq<T>, slash: T, dot: T, current: seq<T>)
    requires slash !in current && slash != dot
    ensures [dot, dot] in Components(path, slash, dot, current) <==> Climbs(current + path, slash, dot)
    decreases path
  {
    hide Climbs;
    if path == [] {
      assert current + path == current;
      ClimbsAlone(current, slash, dot);
    } else if path[0] == slash {
      ComponentsClimb(path[1..], slash, dot, []);
      assert [] + path[1..] == path[1..];
      assert current + path == current + [slash] + path[1..];
      ClimbsSplit(current, path[1..], slash, dot);
    } else {
      ComponentsClimb(path[1..], slash, dot, current + [path[0]]);
      assert current + path == current + [path[0]] + path[1..];
    }
  }

  /** Safe exactly when not empty, not absolute, and nowhere ".." between slashes. */
  lemma SafeExact(s: string)
    ensures Safe(s) <==> s != "" && s[0] != '/' && !Climbs(s, '/', '.')
  {
    ComponentsClimb(s, '/', '.', []);
    assert [] + s == s;
  }
}
