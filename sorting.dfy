/** A stable sort by a comparison, standing for the library sorts the source
    calls (Rust `Vec::sort_by` and JavaScript `Array.prototype.sort`, both
    stable). The comparison is given as `le(a, b)`: "a may come before b". */
module Sorting {

  /** `le` is total and transitive, the condition under which a comparator
      defines a well-formed order. */
  ghost predicate TotalPreorder<T(!new)>(le: (T, T) -> bool) {
    && (forall a, b :: le(a, b) || le(b, a))
    && (forall a, b, c :: le(a, b) && le(b, c) ==> le(a, c))
  }

  ghost predicate SortedBy<T>(s: seq<T>, le: (T, T) -> bool) {
    forall i, j :: 0 <= i < j < |s| ==> le(s[i], s[j])
  }

  /** `a` and `b` compare equal. */
  ghost predicate Tied<T>(le: (T, T) -> bool, a: T, b: T) {
    le(a, b) && le(b, a)
  }

  /** The elements of `s` that compare equal to `x`, in their order in `s`.
      A sort is stable when it keeps every such subsequence. */
  ghost function TiedWith<T>(s: seq<T>, x: T, le: (T, T) -> bool): seq<T> {
    if s == [] then []
    else (if Tied(le, x, s[0]) then [s[0]] else []) + TiedWith(s[1..], x, le)
  }

  /** Places `x` before the first element it may precede. */
  function Insert<T>(x: T, s: seq<T>, le: (T, T) -> bool): (r: seq<T>)
    ensures multiset(r) == multiset(s) + multiset{x}
  {
    if s == [] || le(x, s[0]) then [x] + s
    else
      assert s == [s[0]] + s[1..];
      [s[0]] + Insert(x, s[1..], le)
  }

  function InsertionSort<T>(s: seq<T>, le: (T, T) -> bool): (r: seq<T>)
    ensures multiset(r) == multiset(s)
  {
    if s == [] then []
    else
      assert s == [s[0]] + s[1..];
      Insert(s[0], InsertionSort(s[1..], le), le)
  }

  lemma {:induction false} InsertSorted<T(!new)>(x: T, s: seq<T>, le: (T, T) -> bool)
    requires TotalPreorder(le)
    requires SortedBy(s, le)
    ensures SortedBy(Insert(x, s, le), le)
  {
    if s == [] || le(x, s[0]) {
      var r := [x] + s;
      forall i, j | 0 <= i < j < |r| ensures le(r[i], r[j]) {
        if i == 0 && j > 1 {
          assert le(x, s[0]) && le(s[0], s[j - 1]);
        }
      }
    } else {
      var tail := Insert(x, s[1..], le);
      InsertSorted(x, s[1..], le);
      assert le(s[0], x);
      forall y | y in multiset(tail) ensures le(s[0], y) {
        if y != x {
          assert y in multiset(s[1..]);
          var k :| 0 <= k < |s[1..]| && s[1..][k] == y;
          assert s[k + 1] == y;
        }
      }
      var r := [s[0]] + tail;
      forall i, j | 0 <= i < j < |r| ensures le(r[i], r[j]) {
        if i == 0 {
          assert r[j] == tail[j - 1];
          assert r[j] in multiset(tail);
        } else {
          assert r[i] == tail[i - 1] && r[j] == tail[j - 1];
        }
      }
    }
  }

  lemma TiedWithCons<T>(y: T, s: seq<T>, x: T, le: (T, T) -> bool)
    ensures TiedWith([y] + s, x, le) == (if Tied(le, x, y) then [y] else []) + TiedWith(s, x, le)
  {
    assert ([y] + s)[1..] == s;
  }

  /** An element placed after `y` because it may not precede it cannot be
      tied with the same element as `y`. */
  lemma NotBothTied<T>(h: T, y: T, x: T, le: (T, T) -> bool)
    requires forall z :: le(h, x) && le(x, z) ==> le(h, z)
    requires !le(h, y)
    ensures !(Tied(le, x, y) && Tied(le, x, h))
  {
  }

  lemma SwapAroundEmpty<T>(a: seq<T>, b: seq<T>, rest: seq<T>)
    requires a == [] || b == []
    ensures a + (b + rest) == b + (a + rest)
  {
    if a == [] {
      assert a + (b + rest) == b + rest;
    } else {
      assert b + (a + rest) == a + rest;
    }
  }

  lemma {:induction false} InsertKeepsTies<T(!new)>(h: T, s: seq<T>, x: T, le: (T, T) -> bool)
    requires forall y :: le(h, x) && le(x, y) ==> le(h, y)
    ensures TiedWith(Insert(h, s, le), x, le)
         == (if Tied(le, x, h) then [h] else []) + TiedWith(s, x, le)
  {
    if s == [] || le(h, s[0]) {
      TiedWithCons(h, s, x, le);
    } else {
      var tail := Insert(h, s[1..], le);
      InsertKeepsTies(h, s[1..], x, le);
      TiedWithCons(s[0], tail, x, le);
      var a := if Tied(le, x, s[0]) then [s[0]] else [];
      var b := if Tied(le, x, h) then [h] else [];
      var rest := TiedWith(s[1..], x, le);
      assert Insert(h, s, le) == [s[0]] + tail;
      assert TiedWith(Insert(h, s, le), x, le) == a + (b + rest);
      assert TiedWith(s, x, le) == a + rest;
      NotBothTied(h, s[0], x, le);
      SwapAroundEmpty(a, b, rest);
    }
  }

  /** The sort orders its result, keeps exactly the input's elements, and is
      stable: elements that compare equal keep their relative order. */
  lemma {:induction false} InsertionSortCorrect<T(!new)>(s: seq<T>, le: (T, T) -> bool)
    requires TotalPreorder(le)
    ensures SortedBy(InsertionSort(s, le), le)
    ensures multiset(InsertionSort(s, le)) == multiset(s)
    ensures forall x :: TiedWith(InsertionSort(s, le), x, le) == TiedWith(s, x, le)
  {
    if s != [] {
      var rest := InsertionSort(s[1..], le);
      InsertionSortCorrect(s[1..], le);
      InsertSorted(s[0], rest, le);
      forall x ensures TiedWith(InsertionSort(s, le), x, le) == TiedWith(s, x, le) {
        InsertKeepsTies(s[0], rest, x, le);
      }
    }
  }

  // ---------------------------------------------------------------------
  // Lexicographic order on version numbers

  /** Lexicographic order on number sequences in which a proper prefix comes
      first: Rust's `Ord` on `Vec<u32>`. */
  predicate LexLe(x: seq<nat>, y: seq<nat>) {
    if x == [] then true
    else if y == [] then false
    else if x[0] != y[0] then x[0] < y[0]
    else LexLe(x[1..], y[1..])
  }

  lemma {:induction false} LexLeTotal(x: seq<nat>, y: seq<nat>)
    ensures LexLe(x, y) || LexLe(y, x)
  {
    if x != [] && y != [] && x[0] == y[0] {
      LexLeTotal(x[1..], y[1..]);
    }
  }

  lemma {:induction false} LexLeTransitive(x: seq<nat>, y: seq<nat>, z: seq<nat>)
    requires LexLe(x, y) && LexLe(y, z)
    ensures LexLe(x, z)
  {
    if x != [] && y != [] && z != [] && x[0] == y[0] == z[0] {
      LexLeTransitive(x[1..], y[1..], z[1..]);
    }
  }

  lemma {:induction false} LexLeAntisymmetric(x: seq<nat>, y: seq<nat>)
    requires LexLe(x, y) && LexLe(y, x)
    ensures x == y
  {
    if x != [] && y != [] {
      LexLeAntisymmetric(x[1..], y[1..]);
      assert x == [x[0]] + x[1..] && y == [y[0]] + y[1..];
    }
  }
}
