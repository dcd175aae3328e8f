/** Sequences without repetition, how often something occurs in one, and unused strings. */
module Sequences {
  predicate Distinct<T(==)>(xs: seq<T>) {
    forall i, j :: 0 <= i < j < |xs| ==> xs[i] != xs[j]
  }

  function SetOf<T>(xs: seq<T>): set<T> {
    set x | x in xs
  }

  /** Distinct elements: the set of a sequence is exactly as large as the sequence. */
  lemma {:induction false} DistinctCount<T>(xs: seq<T>)
    requires Distinct(xs)
    ensures |SetOf(xs)| == |xs|
  {
    if xs == [] {
      assert SetOf(xs) == {};
    } else {
      var init, last := xs[..|xs| - 1], xs[|xs| - 1];
      DistinctCount(init);
      assert xs == init + [last];
      assert SetOf(xs) == SetOf(init) + {last};
      assert last !in SetOf(init);
    }
  }

  function Count<T(==)>(xs: seq<T>, x: T): nat {
    if xs == [] then 0
    else Count(xs[..|xs| - 1], x) + if xs[|xs| - 1] == x then 1 else 0
  }

  lemma {:induction false} CountAppend<T>(a: seq<T>, b: seq<T>, x: T)
    ensures Count(a + b, x) == Count(a, x) + Count(b, x)
  {
    if b == [] {
      assert a + b == a;
    } else {
      var n := |b| - 1;
      assert (a + b)[..|a + b| - 1] == a + b[..n];
      CountAppend(a, b[..n], x);
    }
  }

  lemma CountOne<T>(x: T, y: T)
    ensures Count([x], y) == if x == y then 1 else 0
  {
    assert [x][..0] == [];
  }

  lemma {:induction false} CountDistinct<T>(xs: seq<T>, x: T)
    requires Distinct(xs)
    ensures Count(xs, x) == if x in xs then 1 else 0
  {
    if xs != [] {
      CountDistinct(xs[..|xs| - 1], x);
    }
  }

  lemma {:induction false} CountPositive<T>(xs: seq<T>, x: T)
    ensures 0 < Count(xs, x) <==> x in xs
  {
    if xs != [] {
      CountPositive(xs[..|xs| - 1], x);
    }
  }

  lemma {:induction false} LongerThanAll(used: set<string>) returns (n: nat)
    ensures forall s :: s in used ==> |s| < n
    decreases used
  {
    if used == {} {
      n := 0;
    } else {
      var s :| s in used;
      var m := LongerThanAll(used - {s});
      n := if m <= |s| then |s| + 1 else m;
    }
  }

  /** There is always a new id. */
  lemma UnusedString(used: set<string>)
    ensures exists s: string :: s !in used
  {
    var n := LongerThanAll(used);
    var s: string := seq(n, i => 'x');
    assert s !in used;
  }
}
