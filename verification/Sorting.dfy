/** Stable sorting by a key made of strings, as `sort_by` with string comparisons does. */
module Sorting {
  import opened Text

  /** Lexicographic comparison of key tuples, `cmp(..).then_with(..)`. */
  predicate Before(a: seq<string>, b: seq<string>) {
    if b == [] then false
    else if a == [] then true
    else Less(a[0], b[0]) || (a[0] == b[0] && Before(a[1..], b[1..]))
  }

  lemma {:induction false} BeforeTotal(a: seq<string>, b: seq<string>)
    ensures Before(a, b) || a == b || Before(b, a)
    ensures !(Before(a, b) && Before(b, a)) && !Before(a, a)
  {
    hide Less;
    if a == [] {
    } else {
      BeforeTotal(a[1..], if b == [] then [] else b[1..]);
      LessTotal(a[0], if b == [] then [] else b[0]);
    }
    if a != [] && b != [] && a[0] == b[0] && a[1..] == b[1..] {
      assert a == [a[0]] + a[1..] && b == [b[0]] + b[1..];
    }
  }

  lemma {:induction false} BeforeTransitive(a: seq<string>, b: seq<string>, c: seq<string>)
    requires !Before(b, a) && !Before(c, b)
    ensures !Before(c, a)
  {
    hide Less;
    if a != [] && c != [] {
      if b == [] {
      } else {
        LessTotal(a[0], b[0]);
        LessTotal(b[0], c[0]);
        LessTotal(a[0], c[0]);
        if Less(c[0], a[0]) && Less(a[0], b[0]) { LessTransitive(c[0], a[0], b[0]); }
        if a[0] == b[0] == c[0] { BeforeTransitive(a[1..], b[1..], c[1..]); }
        else if Less(a[0], b[0]) && Less(b[0], c[0]) { LessTransitive(a[0], b[0], c[0]); }
      }
    }
  }

  predicate Ascending<T>(xs: seq<T>, key: T -> seq<string>) {
    forall i, j :: 0 <= i < j < |xs| ==> !Before(key(xs[j]), key(xs[i]))
  }

  /** Behind everything that does not come after it: equal keys keep their order. */
  function Insert<T>(xs: seq<T>, x: T, key: T -> seq<string>): (r: seq<T>)
    ensures multiset(r) == multiset(xs) + multiset{x}
    ensures |r| == |xs| + 1
  {
    if xs == [] then [x]
    else
      var front, last := xs[..|xs| - 1], xs[|xs| - 1];
      assert xs == front + [last];
      if !Before(key(x), key(last)) then xs + [x] else Insert(front, x, key) + [last]
  }

  function SortBy<T>(xs: seq<T>, key: T -> seq<string>): (r: seq<T>)
    ensures multiset(r) == multiset(xs) && |r| == |xs|
  {
    if xs == [] then []
    else
      assert xs == xs[..|xs| - 1] + [xs[|xs| - 1]];
      Insert(SortBy(xs[..|xs| - 1], key), xs[|xs| - 1], key)
  }

  lemma {:induction false} InsertAscending<T>(xs: seq<T>, x: T, key: T -> seq<string>)
    requires Ascending(xs, key)
    ensures Ascending(Insert(xs, x, key), key)
  {
    hide Before;
    if xs == [] {
    } else {
      var front, last := xs[..|xs| - 1], xs[|xs| - 1];
      if Before(key(x), key(last)) {
        InsertAscending(front, x, key);
        var r := Insert(front, x, key);
        BeforeTotal(key(x), key(last));
        forall i | 0 <= i < |r| ensures !Before(key(last), key(r[i])) {
          assert r[i] in multiset(r);
          if r[i] != x {
            assert r[i] in front;
            var k :| 0 <= k < |front| && front[k] == r[i];
            assert !Before(key(xs[|xs| - 1]), key(xs[k]));
          }
        }
      } else {
        forall i | 0 <= i < |xs| ensures !Before(key(x), key(xs[i])) {
          if i < |xs| - 1 { BeforeTransitive(key(xs[i]), key(last), key(x)); }
        }
      }
    }
  }

  lemma {:induction false} SortByAscending<T>(xs: seq<T>, key: T -> seq<string>)
    ensures Ascending(SortBy(xs, key), key)
  {
    if xs == [] {
    } else {
      SortByAscending(xs[..|xs| - 1], key);
      InsertAscending(SortBy(xs[..|xs| - 1], key), xs[|xs| - 1], key);
    }
  }

  /** The key tells the elements apart. */
  predicate KeyedBy<T(==)>(xs: seq<T>, key: T -> seq<string>) {
    forall x, y :: x in xs && y in xs && key(x) == key(y) ==> x == y
  }

  /** The last of an ascending arrangement is not before any element. */
  lemma LastIsGreatest<T>(a: seq<T>, key: T -> seq<string>, y: T)
    requires a != [] && Ascending(a, key) && y in a
    ensures !Before(key(a[|a| - 1]), key(y))
  {
    hide Before;
    var i :| 0 <= i < |a| && a[i] == y;
    BeforeTotal(key(y), key(y));
  }

  lemma SameLast<T>(a: seq<T>, b: seq<T>, key: T -> seq<string>)
    requires Ascending(a, key) && Ascending(b, key) && multiset(a) == multiset(b) && KeyedBy(a, key) && a != []
    ensures |a| == |b| && a[|a| - 1] == b[|b| - 1]
  {
    hide Before, Ascending;
    assert |a| == |multiset(a)| == |multiset(b)| == |b|;
    var x, y := a[|a| - 1], b[|b| - 1];
    assert y in multiset(a) by { assert y in multiset(b); }
    assert x in multiset(b) by { assert x in multiset(a); }
    LastIsGreatest(a, key, y);
    LastIsGreatest(b, key, x);
    BeforeTotal(key(x), key(y));
  }

  /** Removing a position removes one occurrence. */
  lemma RemoveAt<T>(a: seq<T>, j: nat)
    requires j < |a|
    ensures multiset(a[..j] + a[j + 1..]) == multiset(a) - multiset{a[j]}
  {
    assert a == a[..j] + [a[j]] + a[j + 1..];
  }

  /** Taking the same element out of two arrangements leaves two arrangements of the rest. */
  lemma RemoveSame<T>(a: seq<T>, i: nat, b: seq<T>, j: nat)
    requires i < |a| && j < |b| && a[i] == b[j] && multiset(a) == multiset(b)
    ensures multiset(a[..i] + a[i + 1..]) == multiset(b[..j] + b[j + 1..])
  {
    RemoveAt(a, i);
    RemoveAt(b, j);
  }

  /** Two ascending arrangements of the same elements are one and the same, when the key tells elements apart. */
  lemma {:induction false} AscendingUnique<T>(a: seq<T>, b: seq<T>, key: T -> seq<string>)
    requires Ascending(a, key) && Ascending(b, key) && multiset(a) == multiset(b) && KeyedBy(a, key)
    ensures a == b
  {
    hide Before;
    if a == [] {
      assert |multiset(b)| == 0;
    } else {
      SameLast(a, b, key);
      var c, d := a[..|a| - 1], b[..|b| - 1];
      RemoveSame(a, |a| - 1, b, |b| - 1);
      assert a[..|a| - 1] + a[|a|..] == c && b[..|b| - 1] + b[|b|..] == d;
      AscendingUnique(c, d, key);
      assert a == c + [a[|a| - 1]] && b == d + [b[|b| - 1]];
    }
  }

  /** Sorting forgets the order it was given. */
  lemma SortByUnique<T>(xs: seq<T>, ys: seq<T>, key: T -> seq<string>)
    requires multiset(xs) == multiset(ys) && KeyedBy(xs, key)
    ensures SortBy(xs, key) == SortBy(ys, key)
  {
    var a, b := SortBy(xs, key), SortBy(ys, key);
    SortByAscending(xs, key);
    SortByAscending(ys, key);
    forall x | x in a ensures x in xs { assert x in multiset(a); }
    AscendingUnique(a, b, key);
  }

  // ----- what does not depend on order

  /** The sum of a weight over the elements. */
  function Total<T>(xs: seq<T>, weight: T -> nat): nat {
    if xs == [] then 0 else Total(xs[..|xs| - 1], weight) + weight(xs[|xs| - 1])
  }

  lemma {:induction false} TotalWithout<T>(b: seq<T>, weight: T -> nat, j: nat)
    requires j < |b|
    ensures Total(b, weight) == Total(b[..j] + b[j + 1..], weight) + weight(b[j])
  {
    var c := b[..j] + b[j + 1..];
    if j == |b| - 1 {
      assert c == b[..j];
    } else {
      var front := b[..|b| - 1];
      TotalWithout(front, weight, j);
      assert c[..|c| - 1] == front[..j] + front[j + 1..];
      assert c[|c| - 1] == b[|b| - 1];
    }
  }

  lemma {:induction false} TotalPermutation<T>(a: seq<T>, b: seq<T>, weight: T -> nat)
    requires multiset(a) == multiset(b)
    ensures Total(a, weight) == Total(b, weight)
    decreases |a|
  {
    assert |a| == |multiset(a)| == |multiset(b)| == |b|;
    if a == [] {
    } else {
      var x := a[|a| - 1];
      assert x in multiset(b) by { assert x in multiset(a); }
      var j :| 0 <= j < |b| && b[j] == x;
      TotalWithout(b, weight, j);
      RemoveSame(a, |a| - 1, b, j);
      assert a[..|a| - 1] + a[|a|..] == a[..|a| - 1];
      TotalPermutation(a[..|a| - 1], b[..j] + b[j + 1..], weight);
    }
  }

  /** No two elements share a name. */
  predicate DistinctBy<T>(xs: seq<T>, name: T -> string) {
    forall i, j :: 0 <= i < j < |xs| ==> name(xs[i]) != name(xs[j])
  }

  function NameSet<T>(xs: seq<T>, name: T -> string): (r: set<string>)
    ensures forall x :: x in xs ==> name(x) in r
  {
    if xs == [] then {} else NameSet(xs[..|xs| - 1], name) + {name(xs[|xs| - 1])}
  }

  lemma {:induction false} NamedBy<T>(xs: seq<T>, name: T -> string, n: string) returns (i: nat)
    requires n in NameSet(xs, name)
    ensures i < |xs| && name(xs[i]) == n
  {
    if name(xs[|xs| - 1]) == n { i := |xs| - 1; } else { i := NamedBy(xs[..|xs| - 1], name, n); }
  }

  lemma DistinctSnoc<T>(front: seq<T>, x: T, name: T -> string)
    ensures DistinctBy(front + [x], name) <==> DistinctBy(front, name) && name(x) !in NameSet(front, name)
  {
    var all := front + [x];
    if DistinctBy(all, name) {
      forall i, j | 0 <= i < j < |front| ensures name(front[i]) != name(front[j]) { assert name(all[i]) != name(all[j]); }
    }
    if name(x) in NameSet(front, name) {
      var i := NamedBy(front, name, name(x));
      assert name(all[i]) == name(all[|front|]);
    }
    if DistinctBy(front, name) && name(x) !in NameSet(front, name) {
      forall i | 0 <= i < |front| ensures name(front[i]) != name(x) { assert front[i] in front; }
    }
  }

  /** As many names as elements: exactly the lists without repeats. */
  lemma {:induction false} NameSetCount<T>(xs: seq<T>, name: T -> string)
    ensures |NameSet(xs, name)| <= |xs|
    ensures |NameSet(xs, name)| == |xs| <==> DistinctBy(xs, name)
  {
    if xs == [] {
    } else {
      var front, x := xs[..|xs| - 1], xs[|xs| - 1];
      NameSetCount(front, name);
      assert xs == front + [x];
      DistinctSnoc(front, x, name);
      var names := NameSet(front, name);
      if name(x) in names { assert names + {name(x)} == names; }
    }
  }

  lemma TwiceIn<T>(s: seq<T>, i: nat, j: nat)
    requires i < j < |s| && s[i] == s[j]
    ensures multiset(s)[s[i]] >= 2
  {
    assert s == s[..j] + [s[j]] + s[j + 1..];
    assert s[..j][i] == s[i];
    assert s[i] in s[..j];
  }

  lemma OnceIn<T>(xs: seq<T>, name: T -> string, a: nat)
    requires a < |xs| && DistinctBy(xs, name)
    ensures multiset(xs)[xs[a]] == 1
  {
    assert xs == xs[..a] + [xs[a]] + xs[a + 1..];
    assert xs[a] !in xs[..a] && xs[a] !in xs[a + 1..];
  }

  lemma DistinctByPermutation<T>(a: seq<T>, b: seq<T>, name: T -> string)
    requires multiset(a) == multiset(b) && DistinctBy(a, name)
    ensures DistinctBy(b, name)
  {
    forall i, j | 0 <= i < j < |b| ensures name(b[i]) != name(b[j]) {
      if name(b[i]) == name(b[j]) {
        assert b[i] in multiset(a) by { assert b[i] in multiset(b); }
        assert b[j] in multiset(a) by { assert b[j] in multiset(b); }
        var p :| 0 <= p < |a| && a[p] == b[i];
        var q :| 0 <= q < |a| && a[q] == b[j];
        OnceIn(a, name, p);
        if p == q { TwiceIn(b, i, j); }
      }
    }
  }

  lemma CoverRest<T>(r: seq<T>, a: seq<T>, name: T -> string, j: nat, front: seq<T>, rest: seq<T>)
    requires r != [] && DistinctBy(r, name) && (forall x :: x in r ==> x in a) && j < |a| && a[j] == r[|r| - 1]
    requires front == r[..|r| - 1] && rest == a[..j] + a[j + 1..]
    ensures forall y :: y in front ==> y in rest
  {
    forall i | 0 <= i < |front| ensures front[i] in rest {
      assert name(r[i]) != name(r[|r| - 1]);
      assert r[i] in a;
      var k :| 0 <= k < |a| && a[k] == r[i];
      assert rest[if k < j then k else k - 1] == r[i];
    }
  }

  lemma SameRest<T>(m: multiset<T>, n: multiset<T>, x: T)
    requires x in m && x in n && m - multiset{x} == n - multiset{x}
    ensures m == n
  {
    assert m == m - multiset{x} + multiset{x} && n == n - multiset{x} + multiset{x};
  }

  /** Distinct elements taken from a list of the same length are all of it: a counting argument. */
  lemma {:induction false} DistinctCover<T>(r: seq<T>, a: seq<T>, name: T -> string)
    requires DistinctBy(r, name) && |r| == |a| && forall x :: x in r ==> x in a
    ensures multiset(r) == multiset(a)
  {
    if r == [] {
    } else {
      var n := |r| - 1;
      var front, x := r[..n], r[n];
      assert x in r && x in a;
      var j :| 0 <= j < |a| && a[j] == x;
      var rest := a[..j] + a[j + 1..];
      CoverRest(r, a, name, j, front, rest);
      DistinctCover(front, rest, name);
      RemoveAt(a, j);
      RemoveAt(r, n);
      assert r[..n] + r[n + 1..] == front;
      SameRest(multiset(r), multiset(a), x);
    }
  }
}
