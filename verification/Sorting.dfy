/** Sorting by a strict order; when all elements are ordered the result is unique. */
module Sorting {
  ghost predicate StrictOrder<T(!new)>(less: (T, T) -> bool) {
    && (forall x, y :: less(x, y) ==> !less(y, x))
    && (forall x, y, z :: less(x, y) && less(y, z) ==> less(x, z))
  }

  /** Strictly increasing: every earlier element is below every later one. */
  predicate Increasing<T>(less: (T, T) -> bool, s: seq<T>) {
    forall i, j | 0 <= i < j < |s| :: less(s[i], s[j])
  }

  /** Any two different positions of s hold comparable elements. */
  ghost predicate Comparable<T(!new)>(less: (T, T) -> bool, s: seq<T>) {
    forall i, j | 0 <= i < j < |s| :: less(s[i], s[j]) || less(s[j], s[i])
  }

  function Insert<T>(less: (T, T) -> bool, x: T, s: seq<T>): seq<T> {
    if s == [] || less(x, s[0]) then [x] + s else [s[0]] + Insert(less, x, s[1..])
  }

  function Sort<T>(less: (T, T) -> bool, s: seq<T>): seq<T> {
    if s == [] then [] else Insert(less, s[0], Sort(less, s[1..]))
  }

  lemma {:induction false} InsertPermutes<T>(less: (T, T) -> bool, x: T, s: seq<T>)
    ensures multiset(Insert(less, x, s)) == multiset{x} + multiset(s)
  {
    if s != [] && !less(x, s[0]) {
      InsertPermutes(less, x, s[1..]);
      assert s == [s[0]] + s[1..];
    }
  }

  lemma {:induction false} SortPermutes<T>(less: (T, T) -> bool, s: seq<T>)
    ensures multiset(Sort(less, s)) == multiset(s)
  {
    if s != [] {
      SortPermutes(less, s[1..]);
      InsertPermutes(less, s[0], Sort(less, s[1..]));
      assert s == [s[0]] + s[1..];
    }
  }

  lemma InMultiset<T>(s: seq<T>, x: T)
    ensures x in multiset(s) <==> x in s
  {
  }

  lemma {:induction false} InsertIncreasing<T(!new)>(less: (T, T) -> bool, x: T, s: seq<T>)
    requires StrictOrder(less) && Increasing(less, s)
    requires forall y | y in s :: less(x, y) || less(y, x)
    ensures Increasing(less, Insert(less, x, s))
  {
    if s != [] {
      if less(x, s[0]) {
        assert forall i | 0 < i < |s| :: less(s[0], s[i]);
      } else {
        var rest := Insert(less, x, s[1..]);
        InsertIncreasing(less, x, s[1..]);
        InsertPermutes(less, x, s[1..]);
        forall y | y in rest ensures less(s[0], y) {
          InMultiset(rest, y);
          if y != x {
            assert y in multiset(s[1..]);
            var i :| 0 <= i < |s[1..]| && s[1..][i] == y;
            assert s[i + 1] == y;
          }
        }
      }
    }
  }

  lemma {:induction false} SortIncreasing<T(!new)>(less: (T, T) -> bool, s: seq<T>)
    requires StrictOrder(less) && Comparable(less, s)
    ensures Increasing(less, Sort(less, s))
  {
    if s != [] {
      SortIncreasing(less, s[1..]);
      SortPermutes(less, s[1..]);
      forall y | y in Sort(less, s[1..]) ensures less(s[0], y) || less(y, s[0]) {
        InMultiset(Sort(less, s[1..]), y);
        assert y in multiset(s[1..]);
        var i :| 0 <= i < |s[1..]| && s[1..][i] == y;
        assert s[i + 1] == y;
      }
      InsertIncreasing(less, s[0], Sort(less, s[1..]));
    }
  }

  /** Two increasing arrangements of the same elements are the same. */
  lemma IncreasingUnique<T(!new)>(less: (T, T) -> bool, s: seq<T>, t: seq<T>)
    requires StrictOrder(less) && Increasing(less, s) && Increasing(less, t)
    requires multiset(s) == multiset(t)
    ensures s == t
  {
    forall x | x in s ensures x in t { InMultiset(s, x); InMultiset(t, x); }
    forall x | x in t ensures x in s { InMultiset(s, x); InMultiset(t, x); }
    SameElements(less, s, t);
  }

  /** Sorting any permutation of an increasing sequence gives that sequence. */
  lemma SortFindsOrder<T(!new)>(less: (T, T) -> bool, s: seq<T>, t: seq<T>)
    requires StrictOrder(less) && Increasing(less, s) && multiset(t) == multiset(s)
    ensures Sort(less, t) == s
  {
    assert Comparable(less, t) by {
      forall i, j | 0 <= i < j < |t| ensures less(t[i], t[j]) || less(t[j], t[i]) {
        PositionsDiffer(less, s, t, i, j);
      }
    }
    SortIncreasing(less, t);
    SortPermutes(less, t);
    IncreasingUnique(less, Sort(less, t), s);
  }

  /** No later element is below an earlier one: all that a sort promises. */
  ghost predicate Arranged<T(!new)>(less: (T, T) -> bool, s: seq<T>) {
    forall i, j | 0 <= i < j < |s| :: !less(s[j], s[i])
  }

  lemma ArrangementUnique<T(!new)>(less: (T, T) -> bool, s: seq<T>, t: seq<T>)
    requires StrictOrder(less) && Comparable(less, s) && multiset(t) == multiset(s) && Arranged(less, t)
    ensures t == Sort(less, s)
  {
    SortIncreasing(less, s);
    SortPermutes(less, s);
    forall i, j | 0 <= i < j < |t| ensures less(t[i], t[j]) {
      PositionsDiffer(less, Sort(less, s), t, i, j);
    }
    IncreasingUnique(less, t, Sort(less, s));
  }

  lemma PositionsDiffer<T(!new)>(less: (T, T) -> bool, s: seq<T>, t: seq<T>, i: nat, j: nat)
    requires StrictOrder(less) && Increasing(less, s) && multiset(t) == multiset(s)
    requires i < j < |t|
    ensures less(t[i], t[j]) || less(t[j], t[i])
  {
    InMultiset(s, t[i]);
    InMultiset(s, t[j]);
    assert t[i] in multiset(t) && t[j] in multiset(t);
    var a :| 0 <= a < |s| && s[a] == t[i];
    var b :| 0 <= b < |s| && s[b] == t[j];
    if a == b {
      assert t == t[..i] + [t[i]] + t[i + 1..j] + [t[j]] + t[j + 1..];
      assert multiset(t)[t[i]] >= 2;
      OnceEach(less, s, t[i]);
    }
  }

  lemma {:induction false} OnceEach<T(!new)>(less: (T, T) -> bool, s: seq<T>, x: T)
    requires StrictOrder(less) && Increasing(less, s)
    ensures multiset(s)[x] <= 1
  {
    if s != [] {
      assert s == [s[0]] + s[1..];
      OnceEach(less, s[1..], x);
      InMultiset(s[1..], x);
      assert forall i | 0 <= i < |s[1..]| :: s[1..][i] == s[i + 1];
    }
  }

  /** Two increasing sequences of the same elements are the same. */
  lemma {:induction false} SameElements<T(!new)>(less: (T, T) -> bool, s: seq<T>, t: seq<T>)
    requires StrictOrder(less) && Increasing(less, s) && Increasing(less, t)
    requires (forall x | x in s :: x in t) && (forall x | x in t :: x in s)
    ensures s == t
  {
    HasElement(s);
    HasElement(t);
    if s != [] && t != [] {
      assert s[0] == t[0] by {
        assert forall i | 0 < i < |t| :: less(t[0], t[i]);
        assert forall i | 0 < i < |s| :: less(s[0], s[i]);
      }
      TailElements(less, s, t);
      TailElements(less, t, s);
      SameElements(less, s[1..], t[1..]);
      assert s == [s[0]] + s[1..] && t == [t[0]] + t[1..];
    }
  }

  lemma HasElement<T(!new)>(s: seq<T>)
    ensures s != [] <==> exists x :: x in s
    ensures s != [] ==> s[0] in s
  {
    if s != [] { assert s[0] in s; }
  }

  lemma TailElements<T(!new)>(less: (T, T) -> bool, s: seq<T>, t: seq<T>)
    requires StrictOrder(less) && Increasing(less, s) && s != [] && t != [] && s[0] == t[0]
    requires forall x | x in s :: x in t
    ensures forall x | x in s[1..] :: x in t[1..]
  {
    forall x | x in s[1..] ensures x in t[1..] {
      var i :| 0 <= i < |s[1..]| && s[1..][i] == x;
      assert less(s[0], s[i + 1]) && x == s[i + 1] && x in s;
      var j :| 0 <= j < |t| && t[j] == x;
      assert t[1..][j - 1] == x;
    }
  }
}
