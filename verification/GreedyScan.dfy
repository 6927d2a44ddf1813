/** The resynchronising scan both frame parsers run: accept and jump, or slide by one octet. */
module GreedyScan {
  /** sizes[o] is the length of the frame acceptable at offset o, or 0 when there is none. */
  function Scan(sizes: seq<nat>, o: nat): (offsets: seq<nat>)
    decreases if o < |sizes| then |sizes| - o else 0
  {
    if o >= |sizes| then []
    else if sizes[o] > 0 then [o] + Scan(sizes, o + sizes[o])
    else Scan(sizes, o + 1)
  }

  /** x lies strictly inside a frame reported before it. */
  ghost predicate Covered(sizes: seq<nat>, offsets: seq<nat>, x: nat) {
    exists y :: y in offsets && y < |sizes| && y < x < y + sizes[y]
  }

  /** The leftmost-greedy choice of offsets at or after `start`: an offset is chosen exactly when it
    * is acceptable and no earlier chosen frame covers it. */
  ghost predicate LeftmostGreedy(sizes: seq<nat>, offsets: seq<nat>, start: nat) {
    && (forall i, j :: 0 <= i < j < |offsets| ==> offsets[i] < offsets[j])
    && (forall x :: x in offsets ==> start <= x < |sizes|)
    && (forall x: nat :: start <= x < |sizes| ==>
          (x in offsets <==> sizes[x] > 0 && !Covered(sizes, offsets, x)))
  }

  lemma {:induction false} ScanBounds(sizes: seq<nat>, o: nat)
    ensures forall x :: x in Scan(sizes, o) ==> o <= x < |sizes| && sizes[x] > 0
    decreases if o < |sizes| then |sizes| - o else 0
  {
    if o < |sizes| {
      ScanBounds(sizes, if sizes[o] > 0 then o + sizes[o] else o + 1);
    }
  }

  /** Reported frames do not overlap. */
  lemma {:induction false} ScanDisjoint(sizes: seq<nat>, o: nat, i: nat, j: nat)
    requires i < j < |Scan(sizes, o)|
    ensures var s := Scan(sizes, o); s[i] < |sizes| && s[i] + sizes[s[i]] <= s[j]
    decreases if o < |sizes| then |sizes| - o else 0
  {
    if sizes[o] > 0 {
      var next := o + sizes[o];
      ScanBounds(sizes, next);
      if i > 0 {
        ScanDisjoint(sizes, next, i - 1, j - 1);
      } else {
        assert Scan(sizes, o)[j] in Scan(sizes, next);
      }
    } else {
      ScanDisjoint(sizes, o + 1, i, j);
    }
  }

  /** Whatever is acceptable and not reported is covered by a frame reported before it. */
  lemma {:induction false} ScanComplete(sizes: seq<nat>, o: nat, x: nat)
    requires o <= x < |sizes| && sizes[x] > 0
    ensures x in Scan(sizes, o) || Covered(sizes, Scan(sizes, o), x)
    decreases |sizes| - o
  {
    if sizes[o] == 0 {
      ScanComplete(sizes, o + 1, x);
    } else if o + sizes[o] <= x {
      ScanComplete(sizes, o + sizes[o], x);
    } else {
      assert o in Scan(sizes, o);
    }
  }

  lemma ScanNotCovered(sizes: seq<nat>, o: nat, x: nat)
    requires x in Scan(sizes, o)
    ensures !Covered(sizes, Scan(sizes, o), x)
  {
    var s := Scan(sizes, o);
    var j :| 0 <= j < |s| && s[j] == x;
    forall y | y in s && y < |sizes|
      ensures y >= x || y + sizes[y] <= x
    {
      var i :| 0 <= i < |s| && s[i] == y;
      if i < j {
        ScanDisjoint(sizes, o, i, j);
      } else if j < i {
        ScanDisjoint(sizes, o, j, i);
      }
    }
  }

  lemma ScanIsGreedy(sizes: seq<nat>, o: nat)
    ensures LeftmostGreedy(sizes, Scan(sizes, o), o)
  {
    var s := Scan(sizes, o);
    ScanBounds(sizes, o);
    forall i, j | 0 <= i < j < |s| ensures s[i] < s[j] {
      ScanDisjoint(sizes, o, i, j);
      assert s[i] in s;
    }
    forall x: nat | o <= x < |sizes|
      ensures x in s <==> sizes[x] > 0 && !Covered(sizes, s, x)
    {
      if x in s {
        ScanNotCovered(sizes, o, x);
      } else if sizes[x] > 0 {
        ScanComplete(sizes, o, x);
      }
    }
  }

  /** The leftmost-greedy choice is unique: it is what the scan reports. */
  lemma {:induction false} GreedyIsScan(sizes: seq<nat>, a: seq<nat>, o: nat)
    requires LeftmostGreedy(sizes, a, o)
    ensures a == Scan(sizes, o)
    decreases if o < |sizes| then |sizes| - o else 0
  {
    hide LeftmostGreedy;
    if o >= |sizes| {
      assert a != [] ==> a[0] in a;
      GreedyEnds(sizes, a, o);
    } else if sizes[o] > 0 {
      GreedyHead(sizes, a, o);
      GreedyTail(sizes, a, o);
      GreedyIsScan(sizes, a[1..], o + sizes[o]);
    } else {
      GreedySkips(sizes, a, o);
      GreedyIsScan(sizes, a, o + 1);
    }
  }

  lemma GreedyEnds(sizes: seq<nat>, a: seq<nat>, o: nat)
    requires o >= |sizes| && LeftmostGreedy(sizes, a, o)
    ensures forall x :: x !in a
  {
  }

  lemma GreedySkips(sizes: seq<nat>, a: seq<nat>, o: nat)
    requires o < |sizes| && sizes[o] == 0 && LeftmostGreedy(sizes, a, o)
    ensures LeftmostGreedy(sizes, a, o + 1)
  {
    hide Covered;
  }

  lemma GreedyHead(sizes: seq<nat>, a: seq<nat>, o: nat)
    requires o < |sizes| && sizes[o] > 0 && LeftmostGreedy(sizes, a, o)
    ensures a != [] && a[0] == o
  {
    assert !Covered(sizes, a, o);
    var k :| 0 <= k < |a| && a[k] == o;
    assert a[0] in a;
    assert a[0] <= a[k];
  }

  lemma GreedyTail(sizes: seq<nat>, a: seq<nat>, o: nat)
    requires o < |sizes| && sizes[o] > 0
    requires a != [] && a[0] == o && LeftmostGreedy(sizes, a, o)
    ensures LeftmostGreedy(sizes, a[1..], o + sizes[o])
  {
    var rest := a[1..];
    forall x ensures x in a <==> x == o || x in rest {
      assert a == [o] + rest;
    }
    forall x | x in rest ensures o + sizes[o] <= x < |sizes| {
      var i :| 0 <= i < |rest| && rest[i] == x;
      assert a[0] < a[i + 1];
      assert x in a && o in a && !Covered(sizes, a, x);
    }
    forall x: nat | o + sizes[o] <= x < |sizes|
      ensures x in rest <==> sizes[x] > 0 && !Covered(sizes, rest, x)
    {
      assert x in a <==> x in rest;
      assert Covered(sizes, a, x) <==> Covered(sizes, rest, x);
    }
  }

  /** Nothing acceptable from o on: the scan reports nothing. */
  lemma {:induction false} ScanNothing(sizes: seq<nat>, o: nat)
    requires forall x :: o <= x < |sizes| ==> sizes[x] == 0
    ensures Scan(sizes, o) == []
    decreases if o < |sizes| then |sizes| - o else 0
  {
    if o < |sizes| {
      ScanNothing(sizes, o + 1);
    }
  }
}
