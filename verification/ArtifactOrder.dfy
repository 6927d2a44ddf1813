/** The two orders on retained paths: pathlib sorts component by component, the validator demands the order of
  * the written strings. */
module ArtifactOrder {
  import opened PosixPath

  /** A directory entry's name. */
  predicate Name(c: string) {
    c != "" && c != "." && c != ".." && '/' !in c
  }

  predicate Names(p: seq<string>) {
    p != [] && forall i :: 0 <= i < |p| ==> Name(p[i])
  }

  /** The order of pathlib: the first differing component decides, a proper ancestor comes first. */
  predicate PathLess(p: seq<string>, q: seq<string>) {
    if q == [] then false
    else if p == [] then true
    else if p[0] == q[0] then PathLess(p[1..], q[1..])
    else Less(p[0], q[0])
  }

  /** Where the orders part: at the first differing component the earlier path's is a proper prefix of the
    * later one's, the earlier path goes on below it, and the next character of the later one sorts before
    * the slash. */
  predicate Clash(p: seq<string>, q: seq<string>) {
    if p == [] || q == [] then false
    else if p[0] == q[0] then Clash(p[1..], q[1..])
    else |p| > 1 && p[0] < q[0] && q[0][|p[0]|] < '/'
  }

  // ---- strings ----

  lemma {:induction false} LessIrreflexive(a: string)
    ensures !Less(a, a)
    decreases |a|
  {
    if a != "" { LessIrreflexive(a[1..]); }
  }

  lemma {:induction false} LessTotal(a: string, b: string)
    ensures a == b || Less(a, b) || Less(b, a)
    decreases |a|
  {
    if a != "" && b != "" && a[0] == b[0] {
      LessTotal(a[1..], b[1..]);
      assert a == [a[0]] + a[1..] && b == [b[0]] + b[1..];
    }
  }

  lemma {:induction false} LessAsymmetric(a: string, b: string)
    ensures !(Less(a, b) && Less(b, a))
    decreases |a|
  {
    if a != "" && b != "" && a[0] == b[0] { LessAsymmetric(a[1..], b[1..]); }
  }

  /** A common front does not matter. */
  lemma {:induction false} LessAfter(c: string, a: string, b: string)
    ensures Less(c + a, c + b) <==> Less(a, b)
    decreases |c|
  {
    if c == "" {
      assert c + a == a && c + b == b;
    } else {
      assert (c + a)[0] == c[0] == (c + b)[0];
      assert (c + a)[1..] == c[1..] + a && (c + b)[1..] == c[1..] + b;
      LessAfter(c[1..], a, b);
    }
  }

  /** Either the smaller string is a proper prefix, or what follows cannot change the order. */
  lemma {:induction false} LessCases(a: string, b: string, u: string, v: string)
    requires Less(a, b)
    ensures a < b || Less(a + u, b + v)
    decreases |a|
  {
    if a != "" && a[0] == b[0] {
      LessCases(a[1..], b[1..], u, v);
      assert (a + u)[1..] == a[1..] + u && (b + v)[1..] == b[1..] + v;
    }
  }

  // ---- written paths ----

  lemma SlashedAt(p: seq<string>)
    requires |p| > 1
    ensures Slashed(p) == p[0] + ("/" + Slashed(p[1..]))
  {
  }

  /** On paths in component order the written strings are in order exactly when the paths do not clash. */
  lemma {:induction false} OrdersAgree(p: seq<string>, q: seq<string>)
    requires Names(p) && Names(q) && PathLess(p, q)
    ensures Less(Slashed(p), Slashed(q)) <==> !Clash(p, q)
    decreases |p|
  {
    hide Name;
    if p[0] == q[0] {
      SameHead(p, q);
      if |p| > 1 {
        OrdersAgree(p[1..], q[1..]);
      }
    } else {
      hide *;
      HeadsDiffer(p, q);
    }
  }

  lemma SameHead(p: seq<string>, q: seq<string>)
    requires Names(p) && Names(q) && p[0] == q[0] && PathLess(p, q)
    ensures |q| > 1
    ensures |p| == 1 ==> Less(Slashed(p), Slashed(q))
    ensures |p| > 1 ==> Less(Slashed(p), Slashed(q)) == Less(Slashed(p[1..]), Slashed(q[1..]))
  {
    hide Name;
    SlashedAt(q);
    var c, y := p[0], "/" + Slashed(q[1..]);
    if |p| == 1 {
      assert Slashed(p) == c + "";
      LessAfter(c, "", y);
    } else {
      SlashedAt(p);
      LessAfter(c, "/" + Slashed(p[1..]), y);
      LessAfter("/", Slashed(p[1..]), Slashed(q[1..]));
    }
  }

  function Below(p: seq<string>): string
    requires p != []
  {
    if |p| == 1 then "" else "/" + Slashed(p[1..])
  }

  lemma SlashedBelow(p: seq<string>)
    requires p != []
    ensures Slashed(p) == p[0] + Below(p)
  {
    if |p| > 1 { SlashedAt(p); }
  }

  lemma HeadsDiffer(p: seq<string>, q: seq<string>)
    requires Names(p) && Names(q) && p[0] != q[0] && PathLess(p, q)
    ensures Less(Slashed(p), Slashed(q)) <==> !Clash(p, q)
  {
    SlashedBelow(p);
    SlashedBelow(q);
    assert Name(p[0]) && Name(q[0]);
    assert Less(p[0], q[0]);
    hide Slashed, Below, Less, Name;
    if p[0] < q[0] {
      PrefixHead(p, q[0], Below(q));
    } else {
      LessCases(p[0], q[0], Below(p), Below(q));
    }
  }

  lemma PrefixHead(p: seq<string>, b: string, v: string)
    requires p != [] && p[0] < b && Name(b)
    ensures Less(p[0] + Below(p), b + v) <==> (|p| == 1 || !(b[|p[0]|] < '/'))
  {
    var a := p[0];
    var w := b[|a|..];
    assert b == a + w && w[0] == b[|a|] && w[0] in b;
    assert b + v == a + (w + v) && (w + v)[0] == w[0];
    hide Slashed, Less;
    LessAfter(a, Below(p), w + v);
    FirstDecides(p, Below(p), w + v);
  }

  lemma FirstDecides(p: seq<string>, u: string, z: string)
    requires p != [] && u == Below(p) && z != "" && z[0] != '/'
    ensures Less(u, z) <==> (|p| == 1 || '/' < z[0])
  {
  }

  /** The string order parts from the component order on these two files. */
  lemma FooClash()
    ensures var p, q := ["foo", "x"], ["foo-2", "y"];
            Names(p) && Names(q) && PathLess(p, q) && Less(Slashed(q), Slashed(p)) && Clash(p, q)
  {
    var p, q := ["foo", "x"], ["foo-2", "y"];
    assert "foo-2" == "foo" + "-2" && "foo-2"[3] == '-';
    assert "foo"[0] == "foo-2"[0] && "foo"[1] == "foo-2"[1] && "foo"[2] == "foo-2"[2];
    LessAfter("foo", "", "-2");
    assert "foo" + "" == "foo";
    assert PathLess(p, q) && Clash(p, q);
    OrdersAgree(p, q);
    LessTotal(Slashed(p), Slashed(q));
    SlashedAt(p);
    SlashedAt(q);
    assert Slashed(p)[3] == '/' && Slashed(q)[3] == '-';
  }

  // ---- reading a written path back ----

  lemma {:induction false} ComponentsOfName(c: string, current: string, rest: string)
    requires '/' !in c
    ensures Components(c + rest, '/', '.', current) == Components(rest, '/', '.', current + c)
    decreases |c|
  {
    if c == "" {
      assert c + rest == rest && current + c == current;
    } else {
      assert c[0] in c;
      assert (c + rest)[0] == c[0] && (c + rest)[1..] == c[1..] + rest;
      assert forall x :: x in c[1..] ==> x in c;
      ComponentsOfName(c[1..], current + [c[0]], rest);
      assert current + [c[0]] + c[1..] == current + c;
    }
  }

  /** Parsing a written relative path gives its components back. */
  lemma {:induction false} PartsOfSlashed(p: seq<string>)
    requires Names(p)
    ensures Parts(Slashed(p)) == p
    decreases |p|
  {
    assert Name(p[0]);
    if |p| == 1 {
      assert p[0] + "" == p[0] && [] + p[0] == p[0];
      ComponentsOfName(p[0], [], "");
      assert p == [p[0]];
    } else {
      var rest := "/" + Slashed(p[1..]);
      SlashedAt(p);
      ComponentsOfName(p[0], [], rest);
      assert [] + p[0] == p[0];
      assert rest[0] == '/' && rest[1..] == Slashed(p[1..]);
      PartsOfSlashed(p[1..]);
      assert p == [p[0]] + p[1..];
    }
  }

  /** A written path of names is safe and is its own normal form. */
  lemma WrittenIsSafe(p: seq<string>)
    requires Names(p)
    ensures Safe(Slashed(p)) && Written(Parse(Slashed(p))) == Slashed(p)
  {
    PartsOfSlashed(p);
    SlashedBelow(p);
    assert Name(p[0]) && p[0][0] in p[0];
    assert Slashed(p)[0] == p[0][0];
    forall i | 0 <= i < |p| ensures p[i] != ['.', '.'] { assert Name(p[i]); }
  }

  lemma SlashedInjective(p: seq<string>, q: seq<string>)
    requires Names(p) && Names(q) && Slashed(p) == Slashed(q)
    ensures p == q
  {
    PartsOfSlashed(p);
    PartsOfSlashed(q);
  }
}
