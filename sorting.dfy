/** Python's `sorted(...)` on a list ordered by a string key: `sorted(names)` on
    channel names, and `sorted(d.items())` on a dictionary whose keys are strings
    (the keys are distinct, so the values are never compared). */
module Sorting {
  import opened PyText

  /** Keys never decrease along `s`. */
  ghost predicate SortedBy<T>(s: seq<T>, key: T -> string) {
    forall i, j :: 0 <= i < j < |s| ==> !StrLess(key(s[j]), key(s[i]))
  }

  /** Keys strictly increase along `s`. */
  ghost predicate StrictlySortedBy<T>(s: seq<T>, key: T -> string) {
    forall i, j :: 0 <= i < j < |s| ==> StrLess(key(s[i]), key(s[j]))
  }

  /** No two elements of `s` share a key. */
  ghost predicate DistinctKeys<T>(s: seq<T>, key: T -> string) {
    forall i, j :: 0 <= i < j < |s| ==> key(s[i]) != key(s[j])
  }

  /** Puts `x` in front of the first element whose key is not below its own. */
  function Insert<T>(x: T, s: seq<T>, key: T -> string): (r: seq<T>)
    ensures |r| == |s| + 1
  {
    if s == [] then [x]
    else if StrLess(key(s[0]), key(x)) then [s[0]] + Insert(x, s[1..], key)
    else [x] + s
  }

  /** `sorted(s, key=key)`: insertion sort, stable for equal keys. */
  function SortBy<T>(s: seq<T>, key: T -> string): (r: seq<T>)
    ensures |r| == |s|
  {
    if s == [] then [] else Insert(s[0], SortBy(s[1..], key), key)
  }

  lemma NotLessTransitive(a: string, b: string, c: string)
    requires !StrLess(b, a) && !StrLess(c, b)
    ensures !StrLess(c, a)
  {
    if StrLess(c, a) {
      if a == b {
      } else if b == c {
      } else {
        StrLessTotal(a, b);
        StrLessTotal(b, c);
        StrLessTransitive(a, b, c);
        StrLessAsymmetric(a, c);
      }
    }
  }

  lemma {:induction false} InsertPermutes<T>(x: T, s: seq<T>, key: T -> string)
    ensures multiset(Insert(x, s, key)) == multiset(s) + multiset{x}
  {
    if s != [] && StrLess(key(s[0]), key(x)) {
      InsertPermutes(x, s[1..], key);
      assert s == [s[0]] + s[1..];
    }
  }

  lemma {:induction false} InsertSorted<T>(x: T, s: seq<T>, key: T -> string)
    requires SortedBy(s, key)
    ensures SortedBy(Insert(x, s, key), key)
  {
    var r := Insert(x, s, key);
    if s == [] {
    } else if StrLess(key(s[0]), key(x)) {
      var t := Insert(x, s[1..], key);
      InsertSorted(x, s[1..], key);
      InsertPermutes(x, s[1..], key);
      forall j | 0 <= j < |t|
        ensures !StrLess(key(t[j]), key(s[0]))
      {
        assert t[j] in multiset(s[1..]) + multiset{x};
        if t[j] == x {
          StrLessAsymmetric(key(s[0]), key(x));
        } else {
          assert t[j] in s[1..];
        }
      }
    } else {
      forall j | 0 <= j < |s|
        ensures !StrLess(key(s[j]), key(x))
      {
        if j > 0 {
          NotLessTransitive(key(x), key(s[0]), key(s[j]));
        }
      }
    }
  }

  /** `sorted` returns the same elements, in non-decreasing key order. */
  lemma {:induction false} SortByCorrect<T>(s: seq<T>, key: T -> string)
    ensures |SortBy(s, key)| == |s|
    ensures multiset(SortBy(s, key)) == multiset(s)
    ensures SortedBy(SortBy(s, key), key)
  {
    if s != [] {
      SortByCorrect(s[1..], key);
      InsertPermutes(s[0], SortBy(s[1..], key), key);
      InsertSorted(s[0], SortBy(s[1..], key), key);
      assert s == [s[0]] + s[1..];
      assert |multiset(SortBy(s, key))| == |multiset(s)|;
    }
  }

  /** With distinct keys the order is strict. */
  lemma SortByStrict<T>(s: seq<T>, key: T -> string)
    requires DistinctKeys(s, key)
    ensures StrictlySortedBy(SortBy(s, key), key)
  {
    var r := SortBy(s, key);
    SortByCorrect(s, key);
    forall i, j | 0 <= i < j < |r|
      ensures StrLess(key(r[i]), key(r[j]))
    {
      DistinctElementsHaveDistinctKeys(s, r, key, i, j);
      StrLessTotal(key(r[i]), key(r[j]));
    }
  }

  lemma DistinctElementsHaveDistinctKeys<T>(s: seq<T>, r: seq<T>, key: T -> string, i: int, j: int)
    requires DistinctKeys(s, key)
    requires multiset(r) == multiset(s)
    requires 0 <= i < j < |r|
    ensures key(r[i]) != key(r[j])
  {
    assert r[i] in multiset(s) && r[j] in multiset(s);
    var a :| 0 <= a < |s| && s[a] == r[i];
    var b :| 0 <= b < |s| && s[b] == r[j];
    if a == b {
      // the same element of s would occur twice in r, so twice in s
      var m := multiset(r);
      assert multiset(r[i..i + 1]) + multiset(r[j..j + 1]) <= m by {
        assert r == r[..i] + r[i..i + 1] + r[i + 1..j] + r[j..j + 1] + r[j + 1..];
      }
      assert m[s[a]] >= 2;
      assert multiset(s)[s[a]] >= 2;
      var c := OtherIndex(s, a);
      assert false;
    }
  }

  /** An element that occurs twice in `s` has a second position. */
  lemma OtherIndex<T>(s: seq<T>, a: int) returns (c: int)
    requires 0 <= a < |s|
    requires multiset(s)[s[a]] >= 2
    ensures 0 <= c < |s| && c != a && s[c] == s[a]
  {
    var rest := s[..a] + s[a + 1..];
    assert s == s[..a] + [s[a]] + s[a + 1..];
    assert multiset(rest)[s[a]] >= 1;
    assert s[a] in rest;
    var k :| 0 <= k < |rest| && rest[k] == s[a];
    c := if k < a then k else k + 1;
  }
}
