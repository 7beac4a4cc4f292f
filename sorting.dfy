/** A stable insertion sort by an integer key. It stands for the database's
    ORDER BY and for Python's `list.sort(key=...)`, which the modelled code
    uses to put a list in random order. */
module Sorting {

  predicate SortedBy<T>(s: seq<T>, key: T -> int) {
    forall i, j :: 0 <= i < j < |s| ==> key(s[i]) <= key(s[j])
  }

  function MapSeq<T, U>(f: T -> U, s: seq<T>): (r: seq<U>)
    ensures |r| == |s| && forall i :: 0 <= i < |s| ==> r[i] == f(s[i])
  {
    seq(|s|, i requires 0 <= i < |s| => f(s[i]))
  }

  /** Puts `x` in front of the first element whose key is at least its own. */
  function Insert<T>(x: T, s: seq<T>, key: T -> int): seq<T> {
    if s == [] || key(x) <= key(s[0]) then [x] + s else [s[0]] + Insert(x, s[1..], key)
  }

  /** Where `Insert` puts `x`. */
  function InsertPos<T>(x: T, s: seq<T>, key: T -> int): (k: nat)
    ensures k <= |s| && Insert(x, s, key) == s[..k] + [x] + s[k..]
  {
    if s == [] || key(x) <= key(s[0]) then 0
    else
      var t := s[1..];
      var k := InsertPos(x, t, key);
      assert Insert(x, s, key) == [s[0]] + (t[..k] + [x] + t[k..]);
      assert [s[0]] + (t[..k] + [x] + t[k..]) == ([s[0]] + t[..k]) + [x] + t[k..];
      assert [s[0]] + t[..k] == s[..k + 1];
      assert t[k..] == s[k + 1..];
      k + 1
  }

  function SortByKey<T>(s: seq<T>, key: T -> int): seq<T> {
    if s == [] then [] else Insert(s[0], SortByKey(s[1..], key), key)
  }

  lemma {:induction false} InsertKeepsSorted<T>(x: T, s: seq<T>, key: T -> int)
    requires SortedBy(s, key)
    ensures SortedBy(Insert(x, s, key), key)
  {
    if s != [] && key(x) > key(s[0]) {
      InsertKeepsSorted(x, s[1..], key);
      var r := Insert(x, s, key);
      var k := InsertPos(x, s[1..], key);
      assert r == [s[0]] + (s[1..][..k] + [x] + s[1..][k..]);
      forall i | 0 < i < |r| ensures key(s[0]) <= key(r[i]) {
        if i - 1 < k {
          assert r[i] == s[i];
        } else if i - 1 > k {
          assert r[i] == s[i - 1];
        }
      }
    }
  }

  lemma {:induction false} MapSeqAppend<T, U>(f: T -> U, a: seq<T>, b: seq<T>)
    ensures MapSeq(f, a + b) == MapSeq(f, a) + MapSeq(f, b)
  {
  }

  lemma {:induction false} InsertAddsOne<T, U>(x: T, s: seq<T>, key: T -> int, f: T -> U)
    ensures |Insert(x, s, key)| == |s| + 1
    ensures multiset(MapSeq(f, Insert(x, s, key))) == multiset(MapSeq(f, s)) + multiset{f(x)}
  {
    if s == [] || key(x) <= key(s[0]) {
      MapSeqAppend(f, [x], s);
    } else {
      InsertAddsOne(x, s[1..], key, f);
      MapSeqAppend(f, [s[0]], Insert(x, s[1..], key));
      MapSeqAppend(f, [s[0]], s[1..]);
      assert [s[0]] + s[1..] == s;
    }
  }

  /** The sort reorders: under any projection, the elements are the same
      multiset as before. */
  lemma {:induction false} SortPermutes<T, U>(s: seq<T>, key: T -> int, f: T -> U)
    ensures |SortByKey(s, key)| == |s|
    ensures multiset(MapSeq(f, SortByKey(s, key))) == multiset(MapSeq(f, s))
  {
    if s != [] {
      var rest := SortByKey(s[1..], key);
      assert SortByKey(s, key) == Insert(s[0], rest, key);
      SortPermutes(s[1..], key, f);
      InsertAddsOne(s[0], rest, key, f);
      assert [s[0]] + s[1..] == s;
      MapSeqAppend(f, [s[0]], s[1..]);
      assert MapSeq(f, [s[0]]) == [f(s[0])];
      assert multiset(MapSeq(f, s)) == multiset{f(s[0])} + multiset(MapSeq(f, s[1..]));
    }
  }

  /** The result is ordered by the key and holds the same elements. */
  lemma {:induction false} SortByKeyCorrect<T>(s: seq<T>, key: T -> int)
    ensures SortedBy(SortByKey(s, key), key)
    ensures multiset(SortByKey(s, key)) == multiset(s)
  {
    if s != [] {
      SortByKeyCorrect(s[1..], key);
      InsertKeepsSorted(s[0], SortByKey(s[1..], key), key);
    }
    SortPermutes(s, key, (x: T) => x);
    assert MapSeq((x: T) => x, s) == s;
    assert MapSeq((x: T) => x, SortByKey(s, key)) == SortByKey(s, key);
  }

  /** `s.sort(key=lambda x: random.random())`: the i-th element gets the i-th
      random draw as its key and the list is sorted stably by those keys. */
  function Shuffle<T>(s: seq<T>, randomKey: nat -> int): seq<T> {
    var keyed := seq(|s|, i requires 0 <= i < |s| => (s[i], randomKey(i)));
    MapSeq((p: (T, int)) => p.0, SortByKey(keyed, (p: (T, int)) => p.1))
  }

  /** Whatever the random draws, the shuffled list is a permutation. */
  lemma ShuffleIsPermutation<T>(s: seq<T>, randomKey: nat -> int)
    ensures multiset(Shuffle(s, randomKey)) == multiset(s)
    ensures |Shuffle(s, randomKey)| == |s|
  {
    var keyed := seq(|s|, i requires 0 <= i < |s| => (s[i], randomKey(i)));
    var first := (p: (T, int)) => p.0;
    SortPermutes(keyed, (p: (T, int)) => p.1, first);
    assert MapSeq(first, keyed) == s;
  }
}
