/**
 * String helpers that the statement builder takes from Go's standard library:
 * the order of `sort.Strings` (byte-wise lexicographic, which on UTF-8 text is
 * the code-point order used here), a sort, `strings.Join`, and small
 * sequence utilities used by the specifications.
 */
module Text {

  /** Go's `a <= b` on strings: lexicographic, a proper prefix comes first. */
  predicate LessEq(a: string, b: string)
  {
    |a| == 0 || (|b| > 0 && (a[0] < b[0] || (a[0] == b[0] && LessEq(a[1..], b[1..]))))
  }

  lemma {:induction false} LessEqReflexive(a: string)
    ensures LessEq(a, a)
  {
    if |a| > 0 { LessEqReflexive(a[1..]); }
  }

  lemma {:induction false} LessEqAntisymmetric(a: string, b: string)
    requires LessEq(a, b) && LessEq(b, a)
    ensures a == b
  {
    if |a| > 0 && |b| > 0 {
      LessEqAntisymmetric(a[1..], b[1..]);
      assert a == [a[0]] + a[1..] && b == [b[0]] + b[1..];
    }
  }

  lemma {:induction false} LessEqTransitive(a: string, b: string, c: string)
    requires LessEq(a, b) && LessEq(b, c)
    ensures LessEq(a, c)
  {
    if |a| > 0 && |b| > 0 && |c| > 0 && a[0] == b[0] && b[0] == c[0] {
      LessEqTransitive(a[1..], b[1..], c[1..]);
    }
  }

  lemma {:induction false} LessEqTotal(a: string, b: string)
    ensures LessEq(a, b) || LessEq(b, a)
  {
    if |a| > 0 && |b| > 0 && a[0] == b[0] {
      LessEqTotal(a[1..], b[1..]);
    }
  }

  ghost predicate Sorted(s: seq<string>)
  {
    forall i, j :: 0 <= i < j < |s| ==> LessEq(s[i], s[j])
  }

  /** Puts `x` into the sorted sequence `s` at its place. */
  function InsertSorted(x: string, s: seq<string>): (r: seq<string>)
    requires Sorted(s)
    ensures Sorted(r)
    ensures multiset(r) == multiset(s) + multiset{x}
  {
    if |s| == 0 then [x]
    else if LessEq(x, s[0]) then
      assert forall j :: 0 <= j < |s| ==> LessEq(x, s[j]) by {
        forall j | 0 <= j < |s| ensures LessEq(x, s[j]) {
          if j > 0 { LessEqTransitive(x, s[0], s[j]); }
        }
      }
      SortedCons(x, s);
      [x] + s
    else
      LessEqTotal(x, s[0]);
      var t := s[1..];
      assert s == [s[0]] + t;
      assert forall j :: 0 <= j < |t| ==> LessEq(s[0], t[j]) by {
        forall j | 0 <= j < |t| ensures LessEq(s[0], t[j]) { assert t[j] == s[j + 1]; }
      }
      var rest := InsertSorted(x, t);
      LowerBoundKept(s[0], x, t, rest);
      SortedCons(s[0], rest);
      [s[0]] + rest
  }

  /** An element below every element of a sorted sequence can go in front of it. */
  lemma SortedCons(a: string, r: seq<string>)
    requires Sorted(r)
    requires forall j :: 0 <= j < |r| ==> LessEq(a, r[j])
    ensures Sorted([a] + r)
  {
    var s := [a] + r;
    forall i, j | 0 <= i < j < |s| ensures LessEq(s[i], s[j]) {
      assert s[j] == r[j - 1];
      if i > 0 { assert s[i] == r[i - 1]; }
    }
  }

  /** A lower bound of `t` and of `x` bounds every arrangement of `t` with `x` added. */
  lemma LowerBoundKept(lo: string, x: string, t: seq<string>, r: seq<string>)
    requires LessEq(lo, x)
    requires forall j :: 0 <= j < |t| ==> LessEq(lo, t[j])
    requires multiset(r) == multiset(t) + multiset{x}
    ensures forall j :: 0 <= j < |r| ==> LessEq(lo, r[j])
  {
    forall j | 0 <= j < |r| ensures LessEq(lo, r[j]) {
      assert r[j] in multiset(r);
      if r[j] != x {
        assert r[j] in multiset(t);
        var k :| 0 <= k < |t| && t[k] == r[j];
      }
    }
  }

  /** The sort that Go's `sort.Strings` performs: the result is ordered and a permutation of the input. */
  function Sort(s: seq<string>): (r: seq<string>)
    ensures Sorted(r)
    ensures multiset(r) == multiset(s)
  {
    if |s| == 0 then []
    else
      assert s == [s[0]] + s[1..];
      InsertSorted(s[0], Sort(s[1..]))
  }

  /** The head of an ordered sequence is below every element of it. */
  lemma SortedHeadLeast(a: seq<string>, x: string)
    requires Sorted(a) && x in multiset(a)
    ensures LessEq(a[0], x)
  {
    var i :| 0 <= i < |a| && a[i] == x;
    if i == 0 { LessEqReflexive(x); }
  }

  /** Two ordered arrangements of the same multiset are the same sequence. */
  lemma {:induction false} SortedUnique(a: seq<string>, b: seq<string>)
    requires Sorted(a) && Sorted(b)
    requires multiset(a) == multiset(b)
    ensures a == b
  {
    if |a| > 0 {
      SortedSameHead(a, b);
      SortedTail(a);
      SortedTail(b);
      SortedUnique(a[1..], b[1..]);
      assert a == [a[0]] + a[1..] && b == [b[0]] + b[1..];
    } else {
      assert multiset(b) == multiset{};
    }
  }

  /** Two ordered arrangements of the same non-empty multiset start alike. */
  lemma SortedSameHead(a: seq<string>, b: seq<string>)
    requires Sorted(a) && Sorted(b)
    requires multiset(a) == multiset(b) && |a| > 0
    ensures |b| > 0 && a[0] == b[0]
  {
    assert a[0] in multiset(a);
    SortedHeadLeast(b, a[0]);
    SortedHeadLeast(a, b[0]);
    LessEqAntisymmetric(a[0], b[0]);
  }

  /** The tail of a sorted sequence is sorted and holds the rest of its elements. */
  lemma SortedTail(a: seq<string>)
    requires Sorted(a) && |a| > 0
    ensures Sorted(a[1..])
    ensures multiset(a[1..]) == multiset(a) - multiset{a[0]}
  {
    assert a == [a[0]] + a[1..];
  }

  /** Sorting forgets the order of its input: only the multiset matters. */
  lemma SortForgetsOrder(a: seq<string>, b: seq<string>)
    requires multiset(a) == multiset(b)
    ensures Sort(a) == Sort(b)
  {
    SortedUnique(Sort(a), Sort(b));
  }

  /** A sorted sequence is its own sort. */
  lemma SortOfSorted(a: seq<string>)
    requires Sorted(a)
    ensures Sort(a) == a
  {
    SortedUnique(Sort(a), a);
  }

  /** Some arrangement of the elements of a finite set, each once (Go's unspecified map order). */
  ghost function Enumerate(s: set<string>): (r: seq<string>)
    ensures multiset(r) == multiset(s)
    ensures |r| == |s|
    decreases |s|
  {
    if s == {} then []
    else
      var x :| x in s;
      var rest := Enumerate(s - {x});
      assert multiset(s) == multiset(s - {x}) + multiset{x};
      [x] + rest
  }

  /** Go's `strings.Join`. */
  function Join(parts: seq<string>, sep: string): (r: string)
  {
    if |parts| == 0 then ""
    else if |parts| == 1 then parts[0]
    else parts[0] + sep + Join(parts[1..], sep)
  }

  /** Moving one element of a work list to the visited side keeps the two apart and their union whole. */
  lemma MoveOne<T>(remaining: set<T>, done: set<T>, all: set<T>, x: T)
    requires remaining !! done && remaining + done == all && x in remaining
    ensures (remaining - {x}) !! (done + {x}) && (remaining - {x}) + (done + {x}) == all
  {
  }

  /** The elements of a sequence with one more at the end. */
  lemma ElementsSnoc(s: seq<string>, init: seq<string>, last: string)
    requires s == init + [last]
    ensures (set x | x in s) == (set x | x in init) + {last}
  {
    forall x | x in s ensures x in init || x == last {
      var i :| 0 <= i < |s| && s[i] == x;
      if i < |init| { assert init[i] == x; }
    }
  }

  /** A one-element set has one arrangement. */
  lemma EnumerateSingleton(x: string)
    ensures Enumerate({x}) == [x]
  {
    var r := Enumerate({x});
    assert r[0] in multiset(r);
  }

  /** `n` copies of `x`. */
  function Repeat<T>(x: T, n: nat): (r: seq<T>)
    ensures |r| == n
    ensures forall i :: 0 <= i < n ==> r[i] == x
  {
    if n == 0 then [] else Repeat(x, n - 1) + [x]
  }

  /** The number of occurrences of `c` in `s`. */
  function Count(s: string, c: char): (n: nat)
    ensures n <= |s|
  {
    if |s| == 0 then 0 else (if s[0] == c then 1 else 0) + Count(s[1..], c)
  }

  lemma {:induction false} CountConcat(a: string, b: string, c: char)
    ensures Count(a + b, c) == Count(a, c) + Count(b, c)
  {
    if |a| > 0 {
      assert (a + b)[1..] == a[1..] + b;
      CountConcat(a[1..], b, c);
    } else {
      assert a + b == b;
    }
  }

  /** `Repeat` read from the front. */
  lemma {:induction false} RepeatFront<T>(x: T, n: nat)
    requires n > 0
    ensures Repeat(x, n) == [x] + Repeat(x, n - 1)
  {
    if n > 1 {
      RepeatFront(x, n - 1);
    }
  }

  /** Joining `n` copies of `p` with a separator free of `c` holds `n` times the `c`s of `p`. */
  lemma {:induction false} JoinRepeatCount(p: string, n: nat, sep: string, c: char)
    requires Count(sep, c) == 0
    ensures Count(Join(Repeat(p, n), sep), c) == n * Count(p, c)
  {
    if n > 1 {
      var rest := Join(Repeat(p, n - 1), sep);
      JoinRepeatFront(p, n, sep);
      JoinRepeatCount(p, n - 1, sep, c);
      CountConcat(p, sep, c);
      CountConcat(p + sep, rest, c);
      MulStep(n, Count(p, c));
    } else if n == 1 {
      assert Repeat(p, 1) == [p];
    }
  }

  lemma MulStep(n: nat, k: nat)
    requires n > 0
    ensures n * k == k + (n - 1) * k
  {
  }

  /** Joining two or more copies: the first copy, the separator, then the rest. */
  lemma JoinRepeatFront(p: string, n: nat, sep: string)
    requires n > 1
    ensures Join(Repeat(p, n), sep) == p + sep + Join(Repeat(p, n - 1), sep)
  {
    RepeatFront(p, n);
    assert Repeat(p, n)[1..] == Repeat(p, n - 1);
  }
}
