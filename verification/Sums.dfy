/** Finite sums over sets and sequences. */
module Sums {

  ghost function SumOver<K>(s: set<K>, f: K -> int): int {
    if s == {} then 0 else
      var x :| x in s;
      f(x) + SumOver(s - {x}, f)
  }

  /** The same for real-valued functions. */
  ghost function SumOverReal<K>(s: set<K>, g: K -> real): real {
    if s == {} then 0.0 else
      var x :| x in s;
      g(x) + SumOverReal(s - {x}, g)
  }

  function SumSeq<T>(xs: seq<T>, f: T -> int): int {
    if xs == [] then 0 else f(xs[0]) + SumSeq(xs[1..], f)
  }

  /** Any element may be taken out first. */
  lemma {:induction false} SumOverRemove<K>(s: set<K>, f: K -> int, k: K)
    requires k in s
    ensures SumOver(s, f) == f(k) + SumOver(s - {k}, f)
    decreases |s|
  {
    var x :| x in s && SumOver(s, f) == f(x) + SumOver(s - {x}, f);
    if x != k {
      SumOverRemove(s - {x}, f, k);
      SumOverRemove(s - {k}, f, x);
      assert s - {x} - {k} == s - {k} - {x};
    }
  }

  lemma {:induction false} SumOverRealRemove<K>(s: set<K>, g: K -> real, k: K)
    requires k in s
    ensures SumOverReal(s, g) == g(k) + SumOverReal(s - {k}, g)
    decreases |s|
  {
    var x :| x in s && SumOverReal(s, g) == g(x) + SumOverReal(s - {x}, g);
    if x != k {
      SumOverRealRemove(s - {x}, g, k);
      SumOverRealRemove(s - {k}, g, x);
      assert s - {x} - {k} == s - {k} - {x};
    }
  }

  /** Real multiplication under a name, so that equal factors give equal products. */
  function Times(x: real, y: real): real {
    x * y
  }

  lemma TimesDistributes(m: real, a: real, b: real)
    ensures Times(m, a + b) == Times(m, a) + Times(m, b)
  {
  }

  /** A real sum whose summands become the integers `f` when scaled by `m`. */
  lemma {:induction false} SumOverRealScaled<K>(s: set<K>, m: real, g: K -> real, f: K -> int)
    requires forall k | k in s :: Times(m, g(k)) == f(k) as real
    ensures Times(m, SumOverReal(s, g)) == SumOver(s, f) as real
    decreases |s|
  {
    if s == {} {
      assert SumOverReal(s, g) == 0.0 && m * 0.0 == 0.0;
    } else {
      var k :| k in s;
      SumOverRemove(s, f, k);
      SumOverRealRemove(s, g, k);
      SumOverRealScaled(s - {k}, m, g, f);
      TimesDistributes(m, g(k), SumOverReal(s - {k}, g));
    }
  }

  lemma {:induction false} SumOverCongruent<K>(s: set<K>, f: K -> int, g: K -> int)
    requires forall x | x in s :: f(x) == g(x)
    ensures SumOver(s, f) == SumOver(s, g)
    decreases |s|
  {
    if s != {} {
      var k :| k in s;
      SumOverRemove(s, f, k);
      SumOverRemove(s, g, k);
      SumOverCongruent(s - {k}, f, g);
    }
  }

  /** Summing once more after one key `k` was added or its value changed. */
  lemma SumOverPointChange<K>(s: set<K>, f: K -> int, g: K -> int, k: K)
    requires forall x | x in s && x != k :: f(x) == g(x)
    requires k !in s ==> f(k) == 0
    ensures SumOver(s + {k}, g) == SumOver(s, f) + g(k) - f(k)
  {
    var rest := s - {k};
    assert s + {k} - {k} == rest;
    SumOverRemove(s + {k}, g, k);
    SumOverCongruent(rest, f, g);
    if k in s {
      SumOverRemove(s, f, k);
    } else {
      assert rest == s;
    }
  }

  lemma {:induction false} SumOverAtMost<K>(s: set<K>, f: K -> int, g: K -> int)
    requires forall x | x in s :: f(x) <= g(x)
    ensures SumOver(s, f) <= SumOver(s, g)
    decreases |s|
  {
    if s != {} {
      var k :| k in s;
      SumOverRemove(s, f, k);
      SumOverRemove(s, g, k);
      SumOverAtMost(s - {k}, f, g);
    }
  }

  /** Non-negative sums grow with the set they range over. */
  lemma {:induction false} SumOverSubset<K>(s: set<K>, t: set<K>, f: K -> int)
    requires s <= t
    requires forall x | x in t :: 0 <= f(x)
    ensures 0 <= SumOver(s, f) <= SumOver(t, f)
    decreases |t|
  {
    if t != {} {
      var k :| k in t;
      SumOverRemove(t, f, k);
      if k in s {
        SumOverRemove(s, f, k);
      }
      assert s - {k} <= t - {k};
      SumOverSubset(s - {k}, t - {k}, f);
      assert k !in s ==> s - {k} == s;
    }
  }

  /** No single non-negative summand exceeds the sum. */
  lemma SumOverMember<K>(s: set<K>, f: K -> int, k: K)
    requires k in s
    requires forall x | x in s :: 0 <= f(x)
    ensures f(k) <= SumOver(s, f)
  {
    SumOverRemove(s, f, k);
    SumOverSubset({}, s - {k}, f);
  }

  /** Keys that contribute nothing may be dropped. */
  lemma {:induction false} SumOverSupport<K>(s: set<K>, t: set<K>, f: K -> int)
    requires t <= s
    requires forall x | x in s && x !in t :: f(x) == 0
    ensures SumOver(s, f) == SumOver(t, f)
    decreases |s|
  {
    if k :| k in s && k !in t {
      SumOverRemove(s, f, k);
      SumOverSupport(s - {k}, t, f);
    } else {
      assert s == t;
    }
  }

  ghost function Plus<K>(f: K -> int, g: K -> int): K -> int {
    x => f(x) + g(x)
  }

  lemma {:induction false} SumOverPlus<K>(s: set<K>, f: K -> int, g: K -> int)
    ensures SumOver(s, Plus(f, g)) == SumOver(s, f) + SumOver(s, g)
    decreases |s|
  {
    if s != {} {
      var k :| k in s;
      SumOverRemove(s, f, k);
      SumOverRemove(s, g, k);
      SumOverRemove(s, Plus(f, g), k);
      SumOverPlus(s - {k}, f, g);
    }
  }

  ghost function Scaled<K>(c: int, f: K -> int): K -> int {
    x => c * f(x)
  }

  lemma {:induction false} SumOverScaled<K>(s: set<K>, c: int, f: K -> int)
    ensures SumOver(s, Scaled(c, f)) == c * SumOver(s, f)
    decreases |s|
  {
    if s != {} {
      var k :| k in s;
      SumOverRemove(s, f, k);
      SumOverRemove(s, Scaled(c, f), k);
      SumOverScaled(s - {k}, c, f);
      assert c * (f(k) + SumOver(s - {k}, f)) == c * f(k) + c * SumOver(s - {k}, f);
    } else {
      assert c * 0 == 0;
    }
  }

  ghost function RowOf<A, B>(g: (A, B) -> int, a: A): B -> int {
    b => g(a, b)
  }

  ghost function ColumnOf<A, B>(g: (A, B) -> int, b: B): A -> int {
    a => g(a, b)
  }

  /** The row sums of a table over the columns `t`, and its column sums over the rows `s`. */
  ghost function Rows<A, B>(t: set<B>, g: (A, B) -> int): A -> int {
    a => SumOver(t, RowOf(g, a))
  }

  ghost function Columns<A, B>(s: set<A>, g: (A, B) -> int): B -> int {
    b => SumOver(s, ColumnOf(g, b))
  }

  /** A finite table has one total, whichever way it is added up. */
  lemma {:induction false} SumOverSwap<A, B>(s: set<A>, t: set<B>, g: (A, B) -> int)
    ensures SumOver(s, Rows(t, g)) == SumOver(t, Columns(s, g))
    decreases |s|
  {
    if s == {} {
      SumOverScaled(t, 0, Columns(s, g));
      SumOverCongruent(t, Columns(s, g), Scaled(0, Columns(s, g)));
    } else {
      var a :| a in s;
      var rest := Columns(s - {a}, g);
      SumOverRemove(s, Rows(t, g), a);
      SumOverSwap(s - {a}, t, g);
      forall b | b in t ensures Columns(s, g)(b) == Plus(RowOf(g, a), rest)(b) {
        SumOverRemove(s, ColumnOf(g, b), a);
      }
      SumOverCongruent(t, Columns(s, g), Plus(RowOf(g, a), rest));
      SumOverPlus(t, RowOf(g, a), rest);
    }
  }

  lemma {:induction false} SumSeqAppend<T>(xs: seq<T>, ys: seq<T>, f: T -> int)
    ensures SumSeq(xs + ys, f) == SumSeq(xs, f) + SumSeq(ys, f)
  {
    if xs == [] {
      assert xs + ys == ys;
    } else {
      assert (xs + ys)[1..] == xs[1..] + ys;
      SumSeqAppend(xs[1..], ys, f);
    }
  }

  lemma {:induction false} SumSeqAtMost<T>(xs: seq<T>, f: T -> int, g: T -> int)
    requires forall x | x in xs :: f(x) <= g(x)
    ensures SumSeq(xs, f) <= SumSeq(xs, g)
  {
    if xs != [] {
      SumSeqAtMost(xs[1..], f, g);
    }
  }

  ghost function Without<T>(xs: seq<T>, i: nat): seq<T>
    requires i < |xs|
  {
    xs[..i] + xs[i + 1..]
  }

  lemma SumSeqWithout<T>(xs: seq<T>, i: nat, f: T -> int)
    requires i < |xs|
    ensures SumSeq(xs, f) == f(xs[i]) + SumSeq(Without(xs, i), f)
  {
    SumSeqAppend(xs[..i], xs[i + 1..], f);
    SumSeqAppend(xs[..i], xs[i..], f);
    assert xs == xs[..i] + xs[i..];
    assert xs[i..][1..] == xs[i + 1..];
  }

  lemma MultisetWithout<T>(xs: seq<T>, i: nat)
    requires i < |xs|
    ensures multiset(Without(xs, i)) == multiset(xs) - multiset{xs[i]}
  {
    assert xs == xs[..i] + [xs[i]] + xs[i + 1..];
  }

  /** A sum does not depend on the order of its summands. */
  lemma {:induction false} SumSeqPermutation<T>(xs: seq<T>, ys: seq<T>, f: T -> int)
    requires multiset(xs) == multiset(ys)
    ensures SumSeq(xs, f) == SumSeq(ys, f)
    decreases |xs|
  {
    if xs == [] {
      assert |ys| == |multiset(ys)| == 0;
    } else {
      assert xs[0] in multiset(ys);
      var i :| 0 <= i < |ys| && ys[i] == xs[0];
      MultisetWithout(xs, 0);
      MultisetWithout(ys, i);
      SumSeqWithout(xs, 0, f);
      SumSeqWithout(ys, i, f);
      SumSeqPermutation(Without(xs, 0), Without(ys, i), f);
    }
  }

  ghost predicate Distinct<T>(xs: seq<T>) {
    forall i, j | 0 <= i < j < |xs| :: xs[i] != xs[j]
  }

  ghost function Elements<T>(xs: seq<T>): set<T> {
    set x | x in xs
  }

  /** A bound of every value by a multiple of another is one of the sums. */
  lemma {:induction false} SumOverWithinFactor<K>(s: set<K>, f: K -> int, g: K -> int, x: real)
    requires forall k | k in s :: f(k) as real <= Times(g(k) as real, x)
    ensures SumOver(s, f) as real <= Times(SumOver(s, g) as real, x)
    decreases |s|
  {
    if s != {} {
      var k :| k in s;
      SumOverRemove(s, f, k);
      SumOverRemove(s, g, k);
      SumOverWithinFactor(s - {k}, f, g, x);
      TimesAdds(g(k) as real, SumOver(s - {k}, g) as real, x);
    }
  }

  lemma TimesAdds(a: real, b: real, x: real)
    ensures Times(a + b, x) == Times(a, x) + Times(b, x)
  {
  }

  lemma {:induction false} SumOverUnion<K>(s: set<K>, t: set<K>, f: K -> int)
    requires s !! t
    ensures SumOver(s + t, f) == SumOver(s, f) + SumOver(t, f)
    decreases |s|
  {
    if s == {} {
      assert s + t == t;
    } else {
      var k :| k in s;
      SumOverRemove(s, f, k);
      SumOverRemove(s + t, f, k);
      assert s + t - {k} == (s - {k}) + t;
      SumOverUnion(s - {k}, t, f);
    }
  }

  /** Without repetitions, the sum over a list is the sum over the set of its members. */
  lemma {:induction false} SumSeqDistinct<T>(xs: seq<T>, f: T -> int)
    requires Distinct(xs)
    ensures SumSeq(xs, f) == SumOver(Elements(xs), f)
  {
    if xs != [] {
      var rest := xs[1..];
      SumSeqDistinct(rest, f);
      SumOverRemove(Elements(xs), f, xs[0]);
      assert Elements(xs) - {xs[0]} == Elements(rest);
    }
  }
}
