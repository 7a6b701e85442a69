/** Edit distance and the error rates the OCR evaluation script computes from it. */
module EditDistance {
  import opened Wrappers

  function Min3(a: nat, b: nat, c: nat): nat {
    var m := if a <= b then a else b;
    if m <= c then m else c
  }

  function Mismatch<T(==)>(x: T, y: T): nat { if x == y then 0 else 1 }

  function Init<T>(s: seq<T>): (init: seq<T>)
    requires s != []
    ensures |init| == |s| - 1
  {
    s[..|s| - 1]
  }

  function Last<T>(s: seq<T>): T
    requires s != []
  {
    s[|s| - 1]
  }

  /** The textbook recursion, on the last elements. */
  function Dist<T(==)>(a: seq<T>, b: seq<T>): nat
    decreases |a| + |b|
  {
    if a == [] then |b|
    else if b == [] then |a|
    else Min3(Dist(a, Init(b)) + 1, Dist(Init(a), b) + 1, Dist(Init(a), Init(b)) + Mismatch(Last(a), Last(b)))
  }

  // ---------------------------------------------------------------- the rolling row

  /** Row `i` of the distance table, up to column `n`. */
  ghost predicate IsRow<T>(row: seq<nat>, left: seq<T>, i: nat, right: seq<T>, n: nat)
    requires i <= |left| && n <= |right|
  {
    |row| == n + 1 && forall j | 0 <= j <= n :: row[j] == Dist(left[..i], right[..j])
  }

  method NextRow<T(==)>(previous: seq<nat>, left: seq<T>, i: nat, right: seq<T>) returns (current: seq<nat>)
    requires i < |left| && IsRow(previous, left, i, right, |right|)
    ensures IsRow(current, left, i + 1, right, |right|)
  {
    hide Dist;
    FirstColumn(left[..i + 1], right);
    current := [i + 1];
    for j := 0 to |right|
      invariant IsRow(current, left, i + 1, right, j)
    {
      Corner(left, i, right, j);
      current := current + [Min3(current[|current| - 1] + 1, previous[j + 1] + 1, previous[j] + Mismatch(left[i], right[j]))];
    }
  }

  /** Two rows suffice: the shorter argument becomes the row, which the symmetry of the distance allows. */
  method EditDistance<T(==)>(first: seq<T>, second: seq<T>) returns (distance: nat)
    ensures distance == Dist(first, second)
  {
    var left, right := first, second;
    if |left| < |right| {
      left, right := right, left;
      Symmetric(first, second);
    }
    var previous: seq<nat> := seq(|right| + 1, j requires 0 <= j => j);
    assert IsRow(previous, left, 0, right, |right|);
    hide Dist;
    for i := 0 to |left|
      invariant IsRow(previous, left, i, right, |right|)
    {
      previous := NextRow(previous, left, i, right);
    }
    assert left[..|left|] == left && right[..|right|] == right;
    distance := previous[|previous| - 1];
  }

  lemma FirstColumn<T>(a: seq<T>, b: seq<T>)
    ensures Dist(a, b[..0]) == |a|
  {
  }

  lemma TakeOneMore<T>(s: seq<T>, i: nat)
    requires i < |s|
    ensures Init(s[..i + 1]) == s[..i] && Last(s[..i + 1]) == s[i]
  {
  }

  lemma LastElements<T>(a: seq<T>, b: seq<T>, a': seq<T>, b': seq<T>, x: T, y: T)
    requires a != [] && b != [] && a' == Init(a) && b' == Init(b) && x == Last(a) && y == Last(b)
    ensures Dist(a, b) == Min3(Dist(a, b') + 1, Dist(a', b) + 1, Dist(a', b') + Mismatch(x, y))
  {
    hide Init, Last, Min3, Mismatch;
  }

  /** The recursion at one cell of the table. */
  lemma Corner<T>(left: seq<T>, i: nat, right: seq<T>, j: nat)
    requires i < |left| && j < |right|
    ensures Dist(left[..i + 1], right[..j + 1])
            == Min3(Dist(left[..i + 1], right[..j]) + 1, Dist(left[..i], right[..j + 1]) + 1,
                    Dist(left[..i], right[..j]) + Mismatch(left[i], right[j]))
  {
    hide *;
    TakeOneMore(left, i);
    TakeOneMore(right, j);
    LastElements(left[..i + 1], right[..j + 1], left[..i], right[..j], left[i], right[j]);
  }

  // ---------------------------------------------------------------- a metric

  lemma {:induction false} Symmetric<T>(a: seq<T>, b: seq<T>)
    ensures Dist(a, b) == Dist(b, a)
    decreases |a| + |b|
  {
    if a != [] && b != [] {
      var a', b' := Init(a), Init(b);
      Symmetric(a, b');
      Symmetric(a', b);
      Symmetric(a', b');
    }
  }

  /** Between the difference of the lengths and the longer length. */
  lemma {:induction false} Bounds<T>(a: seq<T>, b: seq<T>)
    ensures Dist(a, b) <= if |a| <= |b| then |b| else |a|
    ensures Dist(a, b) >= |a| - |b| && Dist(a, b) >= |b| - |a|
    decreases |a| + |b|
  {
    if a != [] && b != [] {
      var a', b' := Init(a), Init(b);
      Bounds(a, b');
      Bounds(a', b);
      Bounds(a', b');
    }
  }

  lemma {:induction false} ZeroExactlyWhenEqual<T>(a: seq<T>, b: seq<T>)
    ensures Dist(a, b) == 0 <==> a == b
    decreases |a| + |b|
  {
    if a != [] && b != [] {
      var a', b' := Init(a), Init(b);
      ZeroExactlyWhenEqual(a', b');
      assert a == a' + [a[|a| - 1]] && b == b' + [b[|b| - 1]];
    }
  }

  lemma {:induction false} Triangle<T>(a: seq<T>, b: seq<T>, c: seq<T>)
    ensures Dist(a, c) <= Dist(a, b) + Dist(b, c)
    decreases |a| + |b| + |c|
  {
    Bounds(a, b);
    Bounds(b, c);
    Bounds(a, c);
    if a != [] && b != [] && c != [] {
      var a', b', c' := Init(a), Init(b), Init(c);
      Triangle(a', b, c);
      Triangle(a, b, c');
      Triangle(a, b', c);
      Triangle(a, b', c');
      Triangle(a', b', c);
      Triangle(a', b', c');
    }
  }

  // ---------------------------------------------------------------- the least cost of an edit script

  datatype Edit<T> = Keep | Insert(item: T) | Delete | Replace(item: T)

  /** Rewrites `a` from the back; None if the script does not fit. */
  function Apply<T>(script: seq<Edit<T>>, a: seq<T>): Option<seq<T>> {
    if script == [] then (if a == [] then Some([]) else None)
    else
      var before, last := script[..|script| - 1], script[|script| - 1];
      if last.Insert? then
        match Apply(before, a) case None => None case Some(b) => Some(b + [last.item])
      else if a == [] then None
      else
        match Apply(before, a[..|a| - 1])
        case None => None
        case Some(b) => Some(match last case Keep => b + [a[|a| - 1]] case Delete => b case Replace(x) => b + [x])
  }

  function Cost<T>(script: seq<Edit<T>>): nat {
    if script == [] then 0 else Cost(script[..|script| - 1]) + if script[|script| - 1].Keep? then 0 else 1
  }

  /** No script that turns `a` into `b` is cheaper than the distance. */
  lemma {:induction false} EveryScriptCostsAtLeast<T>(script: seq<Edit<T>>, a: seq<T>, b: seq<T>)
    requires Apply(script, a) == Some(b)
    ensures Dist(a, b) <= Cost(script)
  {
    if script != [] {
      var before, last := script[..|script| - 1], script[|script| - 1];
      if last.Insert? {
        EveryScriptCostsAtLeast(before, a, b[..|b| - 1]);
        Bounds(a, b);
      } else {
        var b0 := Apply(before, a[..|a| - 1]).value;
        EveryScriptCostsAtLeast(before, a[..|a| - 1], b0);
        if !last.Delete? {
          assert b[..|b| - 1] == b0;
        }
      }
    }
  }

  lemma ScriptExtended<T>(script: seq<Edit<T>>, e: Edit<T>, a: seq<T>)
    ensures (script + [e])[..|script|] == script && (script + [e])[|script|] == e
    ensures Cost(script + [e]) == Cost(script) + if e.Keep? then 0 else 1
  {
    assert (script + [e])[..|script|] == script;
  }

  function Inserts<T>(b: seq<T>): seq<Edit<T>> { seq(|b|, i requires 0 <= i < |b| => Insert(b[i])) }

  lemma {:induction false} InsertsBuild<T>(b: seq<T>)
    ensures Apply(Inserts(b), []) == Some(b) && Cost(Inserts(b)) == |b|
  {
    if b != [] {
      var b' := b[..|b| - 1];
      InsertsBuild(b');
      assert Inserts(b)[..|b| - 1] == Inserts(b');
      assert b == b' + [b[|b| - 1]];
    }
  }

  function Deletes<T>(n: nat): seq<Edit<T>> { seq(n, _ => Delete) }

  lemma {:induction false} DeletesClear<T>(a: seq<T>)
    ensures Apply(Deletes(|a|), a) == Some([]) && Cost(Deletes<T>(|a|)) == |a|
  {
    if a != [] {
      var a' := a[..|a| - 1];
      DeletesClear(a');
      assert Deletes<T>(|a|)[..|a| - 1] == Deletes<T>(|a'|);
    }
  }

  /** And some script costs exactly the distance, so the distance is the minimum. */
  lemma {:induction false} SomeScriptCostsExactly<T>(a: seq<T>, b: seq<T>) returns (script: seq<Edit<T>>)
    ensures Apply(script, a) == Some(b) && Cost(script) == Dist(a, b)
    decreases |a| + |b|
  {
    if a == [] {
      InsertsBuild(b);
      return Inserts(b);
    } else if b == [] {
      DeletesClear(a);
      return Deletes(|a|);
    }
    var a', b', x, y := a[..|a| - 1], b[..|b| - 1], a[|a| - 1], b[|b| - 1];
    assert b == b' + [y];
    if Dist(a, b) == Dist(a, b') + 1 {
      script := SomeScriptCostsExactly(a, b');
      ScriptExtended(script, Insert(y), a);
      script := script + [Insert(y)];
    } else if Dist(a, b) == Dist(a', b) + 1 {
      script := SomeScriptCostsExactly(a', b);
      ScriptExtended(script, Delete, a);
      script := script + [Delete];
    } else {
      script := SomeScriptCostsExactly(a', b');
      var e := if x == y then Keep else Replace(y);
      ScriptExtended(script, e, a);
      script := script + [e];
    }
  }

  // ---------------------------------------------------------------- the error rates

  /** The part of the recognized words that is compared, and the two rates, unrounded. */
  function ComparedWords(expected: seq<string>, actual: seq<string>): seq<string> {
    actual[..if |actual| <= |expected| then |actual| else |expected|]
  }

  function Rate(distance: nat, length: nat): real { distance as real / (if length == 0 then 1 else length) as real }

  method WordErrorRate(expected: seq<string>, actual: seq<string>) returns (rate: real)
    ensures rate == Rate(Dist(expected, ComparedWords(expected, actual)), |expected|)
    ensures 0.0 <= rate <= 1.0
    ensures rate == 0.0 <==> expected <= actual
  {
    var compared := ComparedWords(expected, actual);
    var distance := EditDistance(expected, compared);
    rate := Rate(distance, |expected|);
    Bounds(expected, compared);
    ZeroExactlyWhenEqual(expected, compared);
    RateBounds(distance, |expected|);
    assert expected == compared <==> expected <= actual;
  }

  lemma RateBounds(distance: nat, length: nat)
    ensures Rate(distance, length) >= 0.0
    ensures Rate(distance, length) == 0.0 <==> distance == 0
    ensures Rate(distance, length) <= 1.0 <==> distance <= if length == 0 then 1 else length
  {
  }

  /** Texts without a common character are as far apart as their lengths allow. */
  lemma {:induction false} DisjointTexts<T>(a: seq<T>, b: seq<T>)
    requires forall x | x in a :: x !in b
    ensures Dist(a, b) == if |a| <= |b| then |b| else |a|
    decreases |a| + |b|
  {
    if a != [] && b != [] {
      var a', b' := Init(a), Init(b);
      DisjointTexts(a, b');
      DisjointTexts(a', b);
      DisjointTexts(a', b');
      assert a[|a| - 1] in a && b[|b| - 1] in b;
    }
  }

  /**
   Words are cut to the expected number, characters are not: the character error rate stays within one for
   all texts of given lengths exactly when the compared text is no longer than the expected one, or than one
   character if nothing was expected.
   */
  lemma CharacterRateWithinOneExactly(expectedLength: nat, comparedLength: nat)
    ensures (forall expected: string, compared: string | |expected| == expectedLength && |compared| == comparedLength ::
               Rate(Dist(expected, compared), |expected|) <= 1.0)
            <==> comparedLength <= if expectedLength == 0 then 1 else expectedLength
  {
    forall expected: string, compared: string | |expected| == expectedLength && |compared| == comparedLength
      ensures Rate(Dist(expected, compared), |expected|) <= 1.0
              <==> Dist(expected, compared) <= if expectedLength == 0 then 1 else expectedLength
      ensures Dist(expected, compared) <= if expectedLength <= comparedLength then comparedLength else expectedLength
    {
      RateBounds(Dist(expected, compared), |expected|);
      Bounds(expected, compared);
    }
    var expected, compared := seq(expectedLength, _ => 'a'), seq(comparedLength, _ => 'b');
    DisjointTexts(expected, compared);
    hide Rate, Dist;
  }
}
