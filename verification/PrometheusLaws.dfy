/**
  The encoder emits one line per series and time, in strictly increasing order, with the last value given; nothing
  else about the order of insertion matters; and the text parses back to exactly those points.
 */
module PrometheusLaws {
  import opened Metrics
  import opened Prometheus
  import Sequences

  // ---- Order and duplicates ----

  // The points of one key, in order.
  function WithKey(ps: seq<Point>, k: Key): seq<Point> {
    if ps == [] then [] else (if KeyOf(ps[0]) == k then [ps[0]] else []) + WithKey(ps[1..], k)
  }

  predicate Ordered(ps: seq<Point>) {
    forall i, j :: 0 <= i < j < |ps| ==> !LessKey(KeyOf(ps[j]), KeyOf(ps[i]))
  }

  predicate Increasing(ps: seq<Point>) {
    forall i, j :: 0 <= i < j < |ps| ==> LessKey(KeyOf(ps[i]), KeyOf(ps[j]))
  }

  lemma {:induction false} InsertKeepsKeys(p: Point, ps: seq<Point>, k: Key)
    requires Ordered(ps)
    ensures WithKey(Insert(p, ps), k) == (if KeyOf(p) == k then [p] else []) + WithKey(ps, k)
  {
    hide LessKey;
    if ps != [] && LessKey(KeyOf(ps[0]), KeyOf(p)) {
      KeyIsTotal(KeyOf(ps[0]), KeyOf(p));
      InsertKeepsKeys(p, ps[1..], k);
      assert Insert(p, ps)[1..] == Insert(p, ps[1..]);
    } else {
      assert Insert(p, ps)[1..] == ps;
    }
  }

  // Points of an insertion are the new one and the old ones.
  lemma {:induction false} InsertMembers(p: Point, ps: seq<Point>)
    ensures forall i :: 0 <= i < |Insert(p, ps)| ==> Insert(p, ps)[i] == p || Insert(p, ps)[i] in ps
  {
    hide LessKey;
    if ps != [] && LessKey(KeyOf(ps[0]), KeyOf(p)) {
      InsertMembers(p, ps[1..]);
    }
  }

  lemma NotLessIsTransitive(a: Key, b: Key, c: Key)
    requires !LessKey(b, a) && !LessKey(c, b)
    ensures !LessKey(c, a)
  {
    hide LessKey;
    KeyIsTotal(b, c);
    if LessKey(c, a) {
      if LessKey(b, c) {
        KeyIsTransitive(b, c, a);
      }
    }
  }

  lemma {:induction false} InsertOrders(p: Point, ps: seq<Point>)
    requires Ordered(ps)
    ensures Ordered(Insert(p, ps))
  {
    hide LessKey;
    if ps == [] {
    } else if LessKey(KeyOf(ps[0]), KeyOf(p)) {
      InsertOrders(p, ps[1..]);
      InsertMembers(p, ps[1..]);
      var rest := Insert(p, ps[1..]);
      forall j | 0 <= j < |rest|
        ensures !LessKey(KeyOf(rest[j]), KeyOf(ps[0]))
      {
        KeyIsTotal(KeyOf(ps[0]), KeyOf(p));
      }
    } else {
      forall j | 0 <= j < |ps|
        ensures !LessKey(KeyOf(ps[j]), KeyOf(p))
      {
        if j > 0 {
          NotLessIsTransitive(KeyOf(p), KeyOf(ps[0]), KeyOf(ps[j]));
        }
      }
    }
  }

  /** Sorting puts keys in order and keeps, for every key, its points in the order they came. */
  lemma {:induction false} SortingIsStable(ps: seq<Point>, k: Key)
    ensures Ordered(Sorted(ps)) && WithKey(Sorted(ps), k) == WithKey(ps, k)
  {
    hide LessKey, Insert;
    if ps != [] {
      SortingIsStable(ps[1..], k);
      InsertOrders(ps[0], Sorted(ps[1..]));
      InsertKeepsKeys(ps[0], Sorted(ps[1..]), k);
    }
  }

  // No point of a key that all keys exceed.
  lemma {:induction false} NoSuchKey(ps: seq<Point>, k: Key)
    requires forall i :: 0 <= i < |ps| ==> KeyOf(ps[i]) != k
    ensures WithKey(ps, k) == []
  {
    if ps != [] {
      NoSuchKey(ps[1..], k);
    }
  }

  lemma {:induction false} SurvivorMembers(ps: seq<Point>)
    ensures forall i :: 0 <= i < |Survivors(ps)| ==> Survivors(ps)[i] in ps
  {
    if ps != [] {
      SurvivorMembers(ps[1..]);
    }
  }

  // In order, a key that does not repeat at once does not come again.
  lemma LaterKeysExceed(ps: seq<Point>)
    requires ps != [] && Ordered(ps) && (|ps| > 1 ==> KeyOf(ps[1]) != KeyOf(ps[0]))
    ensures forall j :: 0 < j < |ps| ==> LessKey(KeyOf(ps[0]), KeyOf(ps[j])) && KeyOf(ps[j]) != KeyOf(ps[0])
  {
    hide LessKey;
    forall j | 0 < j < |ps|
      ensures LessKey(KeyOf(ps[0]), KeyOf(ps[j])) && KeyOf(ps[j]) != KeyOf(ps[0])
    {
      KeyIsTotal(KeyOf(ps[0]), KeyOf(ps[1]));
      KeyIsTotal(KeyOf(ps[1]), KeyOf(ps[j]));
      KeyIsTotal(KeyOf(ps[0]), KeyOf(ps[j]));
      if j > 1 && LessKey(KeyOf(ps[1]), KeyOf(ps[j])) {
        KeyIsTransitive(KeyOf(ps[0]), KeyOf(ps[1]), KeyOf(ps[j]));
      }
    }
  }

  lemma {:induction false} SurvivorsIncrease(ps: seq<Point>)
    requires Ordered(ps)
    ensures Increasing(Survivors(ps))
  {
    hide LessKey;
    if ps != [] {
      SurvivorsIncrease(ps[1..]);
      if !(|ps| > 1 && KeyOf(ps[1]) == KeyOf(ps[0])) {
        LaterKeysExceed(ps);
        SurvivorMembers(ps[1..]);
        var rest := Survivors(ps[1..]);
        forall j | 0 <= j < |rest|
          ensures LessKey(KeyOf(ps[0]), KeyOf(rest[j]))
        {
          var m :| 0 <= m < |ps[1..]| && ps[1..][m] == rest[j];
          assert ps[m + 1] == rest[j];
        }
      }
    }
  }

  function LastOf(ps: seq<Point>): seq<Point> {
    if ps == [] then [] else [ps[|ps| - 1]]
  }

  lemma {:induction false} SurvivorsAreLast(ps: seq<Point>, k: Key)
    requires Ordered(ps)
    ensures WithKey(Survivors(ps), k) == LastOf(WithKey(ps, k))
  {
    hide LessKey;
    if ps != [] {
      SurvivorsAreLast(ps[1..], k);
      if |ps| > 1 && KeyOf(ps[1]) == KeyOf(ps[0]) {
        assert KeyOf(ps[0]) == k ==> WithKey(ps[1..], k) != [];
      } else {
        LaterKeysExceed(ps);
        var survivors := Survivors(ps);
        assert survivors[1..] == Survivors(ps[1..]) && survivors[0] == ps[0];
        if KeyOf(ps[0]) == k {
          NoSuchKey(ps[1..], k);
        }
      }
    }
  }

  // The last valid point given for a key.
  function Latest(points: seq<Point>, k: Key): seq<Point> {
    LastOf(WithKey(Filtered(points), k))
  }

  /** The emitted keys strictly increase, and each key given validly is emitted once, with the last point given for it. */
  lemma EmittedAreLatest(points: seq<Point>, k: Key)
    ensures Increasing(Emitted(points)) && WithKey(Emitted(points), k) == Latest(points, k)
  {
    hide LessKey, Filtered, Sorted, Survivors, WithKey;
    SortingIsStable(Filtered(points), k);
    SurvivorsIncrease(Sorted(Filtered(points)));
    SurvivorsAreLast(Sorted(Filtered(points)), k);
    assert Emitted(points) == Survivors(Sorted(Filtered(points)));
  }

  // ---- Only the latest points matter ----

  ghost predicate SameByKey(a: seq<Point>, b: seq<Point>) {
    forall k: Key :: WithKey(a, k) == WithKey(b, k)
  }

  lemma HeadHasKey(a: seq<Point>)
    requires a != []
    ensures WithKey(a, KeyOf(a[0])) != []
  {
  }

  lemma {:induction false} KeyIsSomewhere(ps: seq<Point>, k: Key) returns (i: nat)
    requires WithKey(ps, k) != []
    ensures i < |ps| && KeyOf(ps[i]) == k
  {
    if KeyOf(ps[0]) == k {
      i := 0;
    } else {
      i := KeyIsSomewhere(ps[1..], k);
      i := i + 1;
    }
  }

  lemma SameHead(a: seq<Point>, b: seq<Point>)
    requires Increasing(a) && Increasing(b) && SameByKey(a, b) && a != []
    ensures b != [] && b[0] == a[0]
  {
    hide LessKey;
    var ka := KeyOf(a[0]);
    HeadHasKey(a);
    var i := KeyIsSomewhere(b, ka);
    var kb := KeyOf(b[0]);
    HeadHasKey(b);
    var j := KeyIsSomewhere(a, kb);
    KeyIsTotal(ka, kb);
    assert ka == kb;
    assert WithKey(a, ka)[0] == a[0] && WithKey(b, ka)[0] == b[0];
  }

  lemma {:induction false} IncreasingIsDetermined(a: seq<Point>, b: seq<Point>)
    requires Increasing(a) && Increasing(b) && SameByKey(a, b)
    ensures a == b
  {
    hide LessKey;
    if a == [] {
      if b != [] {
        SameHead(b, a);
      }
    } else {
      SameHead(a, b);
      forall k: Key
        ensures WithKey(a[1..], k) == WithKey(b[1..], k)
      {
        assert WithKey(a, k) == WithKey(b, k);
        var front := if KeyOf(a[0]) == k then [a[0]] else [];
        assert WithKey(a, k)[|front|..] == WithKey(a[1..], k) && WithKey(b, k)[|front|..] == WithKey(b[1..], k);
      }
      IncreasingIsDetermined(a[1..], b[1..]);
      assert a == [a[0]] + a[1..] && b == [b[0]] + b[1..];
    }
  }

  ghost predicate SameLatest(p: seq<Point>, q: seq<Point>) {
    forall k: Key :: Latest(p, k) == Latest(q, k)
  }

  /** Two batches emit the same points exactly when they give the same last point for every key. */
  lemma OnlyLatestMatter(p: seq<Point>, q: seq<Point>)
    ensures Emitted(p) == Emitted(q) <==> SameLatest(p, q)
  {
    hide LessKey, Latest, WithKey, Emitted;
    forall k: Key
      ensures Increasing(Emitted(p)) && WithKey(Emitted(p), k) == Latest(p, k)
      ensures Increasing(Emitted(q)) && WithKey(Emitted(q), k) == Latest(q, k)
    {
      EmittedAreLatest(p, k);
      EmittedAreLatest(q, k);
    }
    EmittedAreLatest(p, Key("", [], 0));
    EmittedAreLatest(q, Key("", [], 0));
    if SameLatest(p, q) {
      assert SameByKey(Emitted(p), Emitted(q)) by {
        forall k: Key
          ensures WithKey(Emitted(p), k) == WithKey(Emitted(q), k)
        {
          assert Latest(p, k) == Latest(q, k);
        }
      }
      IncreasingIsDetermined(Emitted(p), Emitted(q));
    }
  }

  lemma {:induction false} FilterThenKey(ps: seq<Point>, k: Key)
    ensures WithKey(Filtered(ps), k) == Filtered(WithKey(ps, k))
  {
    hide Encodable;
    if ps != [] {
      FilterThenKey(ps[1..], k);
      var front, rest := if Encodable(ps[0]) then [ps[0]] else [], Filtered(ps[1..]);
      assert Filtered(ps)[|front|..] == rest;
      assert front == [] ==> Filtered(ps) == rest;
      var own, others := if KeyOf(ps[0]) == k then [ps[0]] else [], WithKey(ps[1..], k);
      assert WithKey(ps, k)[|own|..] == others;
      assert own == [] ==> WithKey(ps, k) == others;
    }
  }

  /** Reordering points without reordering those of equal key changes no line. */
  lemma ReorderingIsInvisible(p: seq<Point>, q: seq<Point>, fmt: nat -> string)
    requires SameByKey(p, q)
    ensures Lines(Emitted(p), fmt) == Lines(Emitted(q), fmt)
  {
    hide WithKey, Filtered, Emitted, Lines;
    forall k: Key
      ensures Latest(p, k) == Latest(q, k)
    {
      assert WithKey(p, k) == WithKey(q, k);
      FilterThenKey(p, k);
      FilterThenKey(q, k);
    }
    OnlyLatestMatter(p, q);
  }

  // ---- Said of the points given ----

  // The last finite point with a positive timestamp that is given for its series and time.
  ghost predicate LastGiven(points: seq<Point>, i: nat) {
    && i < |points| && Finite(points[i].value) && points[i].timestamp > 0
    && forall j :: i < j < |points| && KeyOf(points[j]) == KeyOf(points[i]) ==> !Finite(points[j].value)
  }

  lemma KeyStep(p: Point, rest: seq<Point>, k: Key)
    ensures WithKey([p] + rest, k) == (if KeyOf(p) == k then [p] else []) + WithKey(rest, k)
  {
    Sequences.Halves([p], rest);
  }

  lemma LastBehind(a: seq<Point>, b: seq<Point>)
    ensures LastOf(a + b) == if b == [] then LastOf(a) else LastOf(b)
  {
    if b == [] {
      Sequences.Unit(a);
    }
  }

  lemma LatestStep(points: seq<Point>, k: Key)
    requires points != []
    ensures Latest(points, k) == if Latest(points[1..], k) != [] then Latest(points[1..], k)
                                 else if Encodable(points[0]) && KeyOf(points[0]) == k then [points[0]] else []
  {
    hide Encodable, WithKey, Filtered, LastOf, KeyOf;
    var p, rest := points[0], Filtered(points[1..]);
    FilterStep(points);
    if Encodable(p) {
      KeyStep(p, rest, k);
      LastBehind(if KeyOf(p) == k then [p] else [], WithKey(rest, k));
      LastOfOne(p);
      LastOfSome(WithKey(rest, k));
    } else {
      Sequences.Unit(rest);
    }
  }

  lemma LastOfOne(p: Point)
    ensures LastOf([p]) == [p] && LastOf([]) == []
  {
  }

  lemma LastOfSome(ps: seq<Point>)
    ensures LastOf(ps) == [] <==> ps == []
  {
  }

  lemma {:induction false} LatestIsLastGiven(points: seq<Point>, k: Key)
    ensures if Latest(points, k) == [] then
              forall i :: 0 <= i < |points| && KeyOf(points[i]) == k ==> !(Finite(points[i].value) && points[i].timestamp > 0)
            else
              exists i: nat :: LastGiven(points, i) && KeyOf(points[i]) == k && Latest(points, k) == [points[i]]
  {
    hide Latest, Finite;
    if points == [] {
      NothingLatest(k);
    } else {
      var rest := points[1..];
      LatestStep(points, k);
      LatestIsLastGiven(rest, k);
      assert forall j :: 0 < j < |points| ==> points[j] == rest[j - 1];
      if Latest(rest, k) != [] {
        var i: nat :| LastGiven(rest, i) && KeyOf(rest[i]) == k && Latest(rest, k) == [rest[i]];
        assert LastGiven(points, i + 1);
      } else if Encodable(points[0]) && KeyOf(points[0]) == k {
        assert LastGiven(points, 0);
      }
    }
  }

  lemma NothingLatest(k: Key)
    ensures Latest([], k) == []
  {
  }

  lemma {:induction false} MemberHasKey(ps: seq<Point>, p: Point)
    ensures p in ps <==> p in WithKey(ps, KeyOf(p))
  {
    if ps != [] {
      MemberHasKey(ps[1..], p);
    }
  }

  /** A point is emitted exactly when it is finite, has a positive timestamp, and no later finite one has its key. */
  lemma EmittedExactly(points: seq<Point>, p: Point)
    ensures p in Emitted(points) <==> exists i: nat :: LastGiven(points, i) && points[i] == p
  {
    hide Latest, WithKey, Emitted;
    var k := KeyOf(p);
    MemberHasKey(Emitted(points), p);
    EmittedAreLatest(points, k);
    LatestIsLastGiven(points, k);
    if i: nat :| LastGiven(points, i) && points[i] == p {
      hide Finite;
      assert Latest(points, k) != [];
      var m: nat :| LastGiven(points, m) && KeyOf(points[m]) == k && Latest(points, k) == [points[m]];
      assert i == m;
    }
  }

  lemma {:induction false} ValidAreKept(points: seq<Point>)
    requires forall i :: 0 <= i < |points| ==> ValidPoint(points[i])
    ensures Filtered(points) == points
  {
    if points != [] {
      ValidAreKept(points[1..]);
      Sequences.FirstAndRest(points);
    }
  }

  /** From valid points, every key comes out once, with the last point given for it. */
  lemma ValidPointsSurvive(points: seq<Point>, k: Key)
    requires forall i :: 0 <= i < |points| ==> ValidPoint(points[i])
    ensures WithKey(Emitted(points), k) == LastOf(WithKey(points, k))
  {
    hide WithKey, Emitted, Filtered, ValidPoint;
    ValidAreKept(points);
    EmittedAreLatest(points, k);
  }

  /** The finite doubles are those whose bits are below infinity, with or without the sign. */
  lemma FiniteBits(bits: nat)
    requires bits < 0x1_0000_0000_0000_0000
    ensures Finite(bits) <==> bits % 0x8000_0000_0000_0000 < 0x7ff0_0000_0000_0000
  {
  }

  // ---- The order of lines ----

  // The texts agree up to a place where the first one ends or has the smaller character.
  ghost predicate Precedes(a: string, b: string) {
    exists n: nat :: n <= |a| && n < |b| && a[..n] == b[..n] && (n == |a| || a[n] < b[n])
  }

  lemma {:induction false} LessIsPrecedes(a: string, b: string)
    ensures LessText(a, b) <==> Precedes(a, b)
  {
    if a != [] && b != [] {
      LessIsPrecedes(a[1..], b[1..]);
      if a[0] == b[0] && Precedes(a[1..], b[1..]) {
        var n: nat :| n <= |a[1..]| && n < |b[1..]| && a[1..][..n] == b[1..][..n] && (n == |a[1..]| || a[1..][n] < b[1..][n]);
        assert a[..n + 1] == [a[0]] + a[1..][..n] && b[..n + 1] == [b[0]] + b[1..][..n];
        assert n + 1 <= |a| && n + 1 < |b| && (n + 1 == |a| || a[n + 1] < b[n + 1]);
      }
      if Precedes(a, b) {
        var n: nat :| n <= |a| && n < |b| && a[..n] == b[..n] && (n == |a| || a[n] < b[n]);
        if n > 0 {
          assert a[0] == a[..n][0] == b[..n][0] == b[0];
          assert a[1..][..n - 1] == a[..n][1..] && b[1..][..n - 1] == b[..n][1..];
        }
      }
    } else if b != [] {
      assert a[..0] == b[..0];
    }
  }

  // The label lists agree up to a place where the first one ends or has the smaller name, or the smaller value.
  ghost predicate LabelsPrecede(a: seq<Label>, b: seq<Label>) {
    exists n: nat :: n <= |a| && n < |b| && a[..n] == b[..n]
      && (n == |a| || Precedes(a[n].0, b[n].0) || (a[n].0 == b[n].0 && Precedes(a[n].1, b[n].1)))
  }

  lemma {:induction false} LessLabelsIsPrecede(a: seq<Label>, b: seq<Label>)
    ensures LessLabels(a, b) ==> LabelsPrecede(a, b)
  {
    hide LessText, Precedes;
    if a != [] && LessLabels(a, b) {
      LessIsPrecedes(a[0].0, b[0].0);
      LessIsPrecedes(a[0].1, b[0].1);
      assert a[..0] == b[..0];
      if !LessLabel(a[0], b[0]) {
        LessLabelsIsPrecede(a[1..], b[1..]);
        var n: nat :| n <= |a[1..]| && n < |b[1..]| && a[1..][..n] == b[1..][..n]
                     && (n == |a[1..]| || Precedes(a[1..][n].0, b[1..][n].0)
                         || (a[1..][n].0 == b[1..][n].0 && Precedes(a[1..][n].1, b[1..][n].1)));
        assert a[..n + 1] == [a[0]] + a[1..][..n] && b[..n + 1] == [b[0]] + b[1..][..n];
        assert n + 1 <= |a| && n + 1 < |b|;
      }
    } else if a == [] && LessLabels(a, b) {
      assert a[..0] == b[..0];
    }
  }

  /** Lines come by metric name, then by labels, then by ascending time. */
  lemma LinesAreInOrder(points: seq<Point>, i: nat, j: nat)
    requires i < j < |Emitted(points)|
    ensures var a, b := Emitted(points)[i], Emitted(points)[j];
            || Precedes(a.name, b.name)
            || (a.name == b.name && LabelsPrecede(a.labels, b.labels))
            || (a.name == b.name && a.labels == b.labels && a.timestamp < b.timestamp)
  {
    hide LessText, LessLabels, Emitted, Precedes, LabelsPrecede;
    EmittedAreLatest(points, Key("", [], 0));
    var a, b := Emitted(points)[i], Emitted(points)[j];
    assert LessKey(KeyOf(a), KeyOf(b));
    LessIsPrecedes(a.name, b.name);
    LessLabelsIsPrecede(a.labels, b.labels);
  }
}
