/**
 * Iteration order of the ordered containers the core relies on.
 *
 * std::map and std::set visit their keys in ascending order without
 * repetition.  SortedKeys gives that order for the keys that a sequence of
 * insertions produced, for any strict total order `less`.
 */
module Ordering {

  ghost predicate IsStrictTotalOrder<T(!new)>(less: (T, T) -> bool)
  {
    && (forall x :: !less(x, x))
    && (forall x, y, z :: less(x, y) && less(y, z) ==> less(x, z))
    && (forall x, y :: x != y ==> less(x, y) || less(y, x))
  }

  ghost predicate StrictlySorted<T>(s: seq<T>, less: (T, T) -> bool)
  {
    forall i, j :: 0 <= i < j < |s| ==> less(s[i], s[j])
  }

  function Elems<T>(s: seq<T>): set<T>
  {
    set y | y in s
  }

  /** Insert x into an ascending duplicate-free sequence, as std::set::insert does. */
  function Insert<T(==)>(x: T, s: seq<T>, less: (T, T) -> bool): seq<T>
  {
    if |s| == 0 then [x]
    else if x == s[0] then s
    else if less(x, s[0]) then [x] + s
    else [s[0]] + Insert(x, s[1..], less)
  }

  /** The keys of xs in the order an ordered container visits them. */
  function SortedKeys<T(==)>(xs: seq<T>, less: (T, T) -> bool): seq<T>
  {
    if |xs| == 0 then [] else Insert(xs[|xs| - 1], SortedKeys(xs[..|xs| - 1], less), less)
  }

  /** Putting an element below all others in front of a sorted sequence keeps it sorted. */
  lemma ConsSorted<T>(h: T, s: seq<T>, less: (T, T) -> bool)
    requires StrictlySorted(s, less)
    requires forall y :: y in s ==> less(h, y)
    ensures StrictlySorted([h] + s, less)
  {
    var r := [h] + s;
    forall i, j | 0 <= i < j < |r| ensures less(r[i], r[j]) {
      if i > 0 {
        assert r[i] == s[i - 1] && r[j] == s[j - 1];
      } else {
        assert r[j] == s[j - 1] && r[j] in s;
      }
    }
  }

  /** The tail of a sorted sequence is sorted and lies above its head. */
  lemma TailSorted<T>(s: seq<T>, less: (T, T) -> bool)
    requires StrictlySorted(s, less) && |s| > 0
    ensures StrictlySorted(s[1..], less)
    ensures forall y :: y in s[1..] ==> less(s[0], y)
  {
    var t := s[1..];
    forall i, j | 0 <= i < j < |t| ensures less(t[i], t[j]) {
      assert t[i] == s[i + 1] && t[j] == s[j + 1];
    }
    forall y | y in t ensures less(s[0], y) {
      var k :| 0 <= k < |t| && t[k] == y;
      assert s[k + 1] == y;
    }
  }

  lemma {:induction false} InsertSorted<T(!new)>(x: T, s: seq<T>, less: (T, T) -> bool)
    requires IsStrictTotalOrder(less)
    requires StrictlySorted(s, less)
    ensures StrictlySorted(Insert(x, s, less), less)
    ensures Elems(Insert(x, s, less)) == Elems(s) + {x}
    ensures |s| > 0 && !less(x, s[0]) ==> |Insert(x, s, less)| > 0 && Insert(x, s, less)[0] == s[0]
  {
    if |s| == 0 {
    } else if x == s[0] {
    } else {
      var t := s[1..];
      TailSorted(s, less);
      assert s == [s[0]] + t;
      if less(x, s[0]) {
        forall y | y in s ensures less(x, y) {
          if y != s[0] {
            assert y in t && less(s[0], y);
          }
        }
        ConsSorted(x, s, less);
      } else {
        InsertSorted(x, t, less);
        var it := Insert(x, t, less);
        assert less(s[0], x);
        forall y | y in it ensures less(s[0], y) {
          assert y in Elems(it);
        }
        ConsSorted(s[0], it, less);
        assert Elems([s[0]] + it) == {s[0]} + Elems(it);
        assert Elems(s) == {s[0]} + Elems(t);
      }
    }
  }

  /** The keys come out ascending, without repetition, and are exactly the inserted ones. */
  lemma {:induction false} SortedKeysCorrect<T(!new)>(xs: seq<T>, less: (T, T) -> bool)
    requires IsStrictTotalOrder(less)
    ensures StrictlySorted(SortedKeys(xs, less), less)
    ensures Elems(SortedKeys(xs, less)) == Elems(xs)
  {
    if |xs| > 0 {
      var init := xs[..|xs| - 1];
      SortedKeysCorrect(init, less);
      InsertSorted(xs[|xs| - 1], SortedKeys(init, less), less);
      assert xs == init + [xs[|xs| - 1]];
      assert Elems(xs) == Elems(init) + {xs[|xs| - 1]};
    }
  }

  /** A strictly sorted sequence holds no key twice. */
  lemma StrictlySortedDistinct<T(!new)>(s: seq<T>, less: (T, T) -> bool, i: nat, j: nat)
    requires IsStrictTotalOrder(less)
    requires StrictlySorted(s, less)
    requires i < |s| && j < |s| && i != j
    ensures s[i] != s[j]
  {
    if i < j {
      assert less(s[i], s[j]);
    } else {
      assert less(s[j], s[i]);
    }
  }

  /** Ascending order on nat: the order of std::set<T*> / std::map<T*, ...> keys. */
  function NatLess(a: nat, b: nat): bool
  {
    a < b
  }

  lemma NatLessIsStrictTotalOrder()
    ensures IsStrictTotalOrder(NatLess)
  {
  }
}
