/**
 * Generic sequence helpers standing for the JavaScript array operations the
 * store uses on the values of its maps: `Array.from(map.values())`,
 * `filter`, `find`, a stable descending `sort` and `slice(0, n)`.
 */
module Collections {

  datatype Option<T> = None | Some(value: T)

  function Min(a: int, b: int): int { if a <= b then a else b }

  function Max(a: int, b: int): int { if a <= b then b else a }

  /** The set of keys of `m` in the id range [1, n). */
  function KeysBelow<T>(m: map<int, T>, n: int): set<int>
  {
    set k | k in m && 1 <= k < n
  }

  /**
   * The values of `m` whose keys lie in [1, n), in ascending key order.
   * Ids are handed out 1, 2, 3, ... and never reused, so for a map whose keys
   * are all below its id counter this is the insertion order in which a
   * JavaScript `Map` yields its values.
   */
  function ValuesBelow<T>(m: map<int, T>, n: int): seq<T>
    decreases n
  {
    if n <= 1 then [] else ValuesBelow(m, n - 1) + (if n - 1 in m then [m[n - 1]] else [])
  }

  lemma {:induction false} ValuesBelowMembership<T>(m: map<int, T>, n: int, x: T)
    ensures x in ValuesBelow(m, n) <==> exists k :: k in m && 1 <= k < n && m[k] == x
    decreases n
  {
    if n > 1 {
      ValuesBelowMembership(m, n - 1, x);
      if x in ValuesBelow(m, n - 1) {
        assert x in ValuesBelow(m, n);
      }
      if exists k :: k in m && 1 <= k < n && m[k] == x {
        var k :| k in m && 1 <= k < n && m[k] == x;
        if k < n - 1 {
          assert x in ValuesBelow(m, n - 1);
        }
      }
    }
  }

  /** Every value of `m` under a key in [1, n) is listed once per key. */
  lemma {:induction false} ValuesBelowCount<T>(m: map<int, T>, n: int)
    ensures |ValuesBelow(m, n)| == |KeysBelow(m, n)|
    decreases n
  {
    if n <= 1 {
      assert KeysBelow(m, n) == {};
    } else {
      ValuesBelowCount(m, n - 1);
      if n - 1 in m {
        assert KeysBelow(m, n) == KeysBelow(m, n - 1) + {n - 1};
        assert n - 1 !in KeysBelow(m, n - 1);
      } else {
        assert KeysBelow(m, n) == KeysBelow(m, n - 1);
      }
    }
  }

  /** The elements of `s` appear in strictly increasing order of `idOf`. */
  ghost predicate IncreasingBy<T>(s: seq<T>, idOf: T -> int)
  {
    forall i, j :: 0 <= i < j < |s| ==> idOf(s[i]) < idOf(s[j])
  }

  ghost predicate NoDuplicates<T>(s: seq<T>)
  {
    forall i, j :: 0 <= i < j < |s| ==> s[i] != s[j]
  }

  /** Values stored under their own ids are listed in increasing id order. */
  lemma {:induction false} ValuesBelowIncreasing<T>(m: map<int, T>, n: int, idOf: T -> int)
    requires forall k :: k in m ==> idOf(m[k]) == k
    ensures IncreasingBy(ValuesBelow(m, n), idOf)
    decreases n
  {
    if n > 1 {
      ValuesBelowIncreasing(m, n - 1, idOf);
      var prev := ValuesBelow(m, n - 1);
      forall i | 0 <= i < |prev| ensures idOf(prev[i]) < n - 1 {
        ValuesBelowMembership(m, n - 1, prev[i]);
      }
    }
  }

  /** An element occurs at most once in a sequence without repeats. */
  lemma {:induction false} NoDuplicatesCount<T>(s: seq<T>, x: T)
    requires NoDuplicates(s)
    ensures multiset(s)[x] <= 1
    decreases |s|
  {
    if s != [] {
      assert s == [s[0]] + s[1..];
      NoDuplicatesCount(s[1..], x);
      if s[0] == x {
        assert x !in s[1..];
      }
    }
  }

  /** An element found at two positions occurs at least twice. */
  lemma RepeatCount<T>(r: seq<T>, i: int, j: int)
    requires 0 <= i < j < |r| && r[i] == r[j]
    ensures multiset(r)[r[i]] >= 2
  {
    assert r == r[..i] + [r[i]] + r[i + 1..j] + [r[j]] + r[j + 1..];
  }

  /** Whatever is drawn from a sequence without repeats has no repeats either. */
  lemma SubMultisetNoDuplicates<T>(s: seq<T>, r: seq<T>)
    requires NoDuplicates(s) && multiset(r) <= multiset(s)
    ensures NoDuplicates(r)
  {
    forall i, j | 0 <= i < j < |r| ensures r[i] != r[j] {
      if r[i] == r[j] {
        RepeatCount(r, i, j);
        NoDuplicatesCount(s, r[i]);
      }
    }
  }

  /** `Array.prototype.find`: the first element satisfying `p`, if any. */
  function Find<T>(s: seq<T>, p: T -> bool): (r: Option<T>)
    ensures r.Some? ==> r.value in s && p(r.value)
    ensures r.Some? ==> exists i :: 0 <= i < |s| && s[i] == r.value && forall j :: 0 <= j < i ==> !p(s[j])
    ensures r.None? <==> forall i :: 0 <= i < |s| ==> !p(s[i])
  {
    if s == [] then None
    else if p(s[0]) then Some(s[0])
    else Find(s[1..], p)
  }

  /** `Array.prototype.filter`: the elements satisfying `p`, in order. */
  function Filter<T>(s: seq<T>, p: T -> bool): (r: seq<T>)
    ensures forall i :: 0 <= i < |r| ==> r[i] in s && p(r[i])
    ensures forall i :: 0 <= i < |s| && p(s[i]) ==> s[i] in r
    ensures |r| <= |s|
  {
    if s == [] then []
    else (if p(s[0]) then [s[0]] else []) + Filter(s[1..], p)
  }

  /** Filtering keeps the order of what it keeps. */
  lemma {:induction false} FilterIncreasing<T>(s: seq<T>, p: T -> bool, idOf: T -> int)
    requires IncreasingBy(s, idOf)
    ensures IncreasingBy(Filter(s, p), idOf)
    decreases |s|
  {
    if s != [] {
      var tail := s[1..];
      assert IncreasingBy(tail, idOf) by {
        forall i, j | 0 <= i < j < |tail| ensures idOf(tail[i]) < idOf(tail[j]) {
          assert tail[i] == s[i + 1] && tail[j] == s[j + 1];
        }
      }
      FilterIncreasing(tail, p, idOf);
      var rest := Filter(tail, p);
      forall i | 0 <= i < |rest| ensures idOf(s[0]) < idOf(rest[i]) {
        var k :| 0 <= k < |tail| && tail[k] == rest[i];
        assert s[k + 1] == rest[i];
      }
      var head := if p(s[0]) then [s[0]] else [];
      assert Filter(s, p) == head + rest;
    }
  }

  lemma {:induction false} FilterAppend<T>(a: seq<T>, b: seq<T>, p: T -> bool)
    ensures Filter(a + b, p) == Filter(a, p) + Filter(b, p)
    decreases |a|
  {
    if a == [] {
      assert a + b == b;
    } else {
      assert (a + b)[1..] == a[1..] + b;
      FilterAppend(a[1..], b, p);
    }
  }

  /** Filtering the stored values keeps one element per matching key. */
  lemma FilterValuesBelowStep<T>(m: map<int, T>, n: int, p: T -> bool)
    requires n > 1
    ensures |Filter(ValuesBelow(m, n), p)| == |Filter(ValuesBelow(m, n - 1), p)| + if n - 1 in m && p(m[n - 1]) then 1 else 0
  {
    var last: seq<T> := if n - 1 in m then [m[n - 1]] else [];
    FilterAppend(ValuesBelow(m, n - 1), last, p);
    if n - 1 in m {
      assert last[1..] == [];
    }
  }

  lemma KeysWhereBelowStep<T>(m: map<int, T>, n: int, p: T -> bool)
    requires n > 1
    ensures |set k | k in m && 1 <= k < n && p(m[k])| ==
      |set k | k in m && 1 <= k < n - 1 && p(m[k])| + if n - 1 in m && p(m[n - 1]) then 1 else 0
  {
    var before := set k | k in m && 1 <= k < n - 1 && p(m[k]);
    if n - 1 in m && p(m[n - 1]) {
      assert (set k | k in m && 1 <= k < n && p(m[k])) == before + {n - 1};
      assert n - 1 !in before;
    } else {
      assert (set k | k in m && 1 <= k < n && p(m[k])) == before;
    }
  }

  lemma {:induction false} FilterValuesBelowCount<T>(m: map<int, T>, n: int, p: T -> bool)
    ensures |Filter(ValuesBelow(m, n), p)| == |set k | k in m && 1 <= k < n && p(m[k])|
    decreases n
  {
    if n <= 1 {
      assert (set k | k in m && 1 <= k < n && p(m[k])) == {};
    } else {
      FilterValuesBelowCount(m, n - 1, p);
      FilterValuesBelowStep(m, n, p);
      KeysWhereBelowStep(m, n, p);
    }
  }

  /** `slice(0, n)`: a prefix; a negative `n` drops that many elements from the end. */
  function Take<T>(s: seq<T>, n: int): (r: seq<T>)
    ensures r <= s
    ensures |r| == if n >= 0 then Min(n, |s|) else Max(0, |s| + n)
  {
    if n >= 0 then s[..Min(n, |s|)] else s[..Max(0, |s| + n)]
  }

  ghost predicate SortedDesc<T>(s: seq<T>, key: T -> real)
  {
    forall i, j :: 0 <= i < j < |s| ==> key(s[i]) >= key(s[j])
  }

  /**
   * Inserts `x` before the first element whose key is not larger than its
   * own, so that `x` precedes elements with an equal key (stability).
   */
  function InsertDesc<T>(x: T, s: seq<T>, key: T -> real): (r: seq<T>)
    ensures multiset(r) == multiset(s) + multiset{x}
  {
    if s == [] || key(s[0]) <= key(x) then [x] + s
    else
      assert s == [s[0]] + s[1..];
      [s[0]] + InsertDesc(x, s[1..], key)
  }

  /** Inserting into a sorted sequence keeps it sorted. */
  lemma {:induction false} InsertDescSorted<T>(x: T, s: seq<T>, key: T -> real)
    requires SortedDesc(s, key)
    ensures SortedDesc(InsertDesc(x, s, key), key)
    decreases |s|
  {
    if s != [] && key(s[0]) > key(x) {
      var rest := InsertDesc(x, s[1..], key);
      InsertDescSorted(x, s[1..], key);
      forall i | 0 <= i < |rest| ensures key(s[0]) >= key(rest[i]) {
        assert rest[i] in multiset(rest);
        assert rest[i] == x || rest[i] in multiset(s[1..]);
      }
    }
  }

  /**
   * A stable sort in descending order of `key`: the behaviour of
   * `arr.sort((a, b) => key(b) - key(a))` (ECMAScript sorts are stable).
   */
  function SortDesc<T>(s: seq<T>, key: T -> real): (r: seq<T>)
    ensures multiset(r) == multiset(s)
    ensures SortedDesc(r, key)
  {
    if s == [] then []
    else
      assert s == [s[0]] + s[1..];
      var sorted := SortDesc(s[1..], key);
      InsertDescSorted(s[0], sorted, key);
      InsertDesc(s[0], sorted, key)
  }

  /** Among elements with equal keys `idOf` increases: ties keep their original order. */
  ghost predicate TiesIncreasing<T>(s: seq<T>, key: T -> real, idOf: T -> int)
  {
    forall i, j :: 0 <= i < j < |s| && key(s[i]) == key(s[j]) ==> idOf(s[i]) < idOf(s[j])
  }

  /** Putting in front an element created before its ties keeps ties in order. */
  lemma ConsTiesIncreasing<T>(h: T, s: seq<T>, key: T -> real, idOf: T -> int)
    requires TiesIncreasing(s, key, idOf)
    requires forall j :: 0 <= j < |s| && key(h) == key(s[j]) ==> idOf(h) < idOf(s[j])
    ensures TiesIncreasing([h] + s, key, idOf)
  {
    var r := [h] + s;
    forall i, j | 0 <= i < j < |r| && key(r[i]) == key(r[j]) ensures idOf(r[i]) < idOf(r[j]) {
      assert r[j] == s[j - 1];
      if i > 0 {
        assert r[i] == s[i - 1];
      }
    }
  }

  lemma TailTiesIncreasing<T>(s: seq<T>, key: T -> real, idOf: T -> int)
    requires s != [] && TiesIncreasing(s, key, idOf)
    ensures TiesIncreasing(s[1..], key, idOf)
  {
    var t := s[1..];
    forall i, j | 0 <= i < j < |t| && key(t[i]) == key(t[j]) ensures idOf(t[i]) < idOf(t[j]) {
      assert t[i] == s[i + 1] && t[j] == s[j + 1];
    }
  }

  /** Every element of an insertion is the inserted one or an element of `s`. */
  lemma InsertDescFrom<T>(x: T, s: seq<T>, key: T -> real)
    ensures forall y :: y in InsertDesc(x, s, key) ==> y == x || y in s
  {
    var r := InsertDesc(x, s, key);
    forall y | y in r ensures y == x || y in s {
      assert y in multiset(r);
    }
  }

  lemma {:induction false} InsertDescStable<T>(x: T, t: seq<T>, key: T -> real, idOf: T -> int)
    requires TiesIncreasing(t, key, idOf)
    requires forall i :: 0 <= i < |t| ==> idOf(x) < idOf(t[i])
    ensures TiesIncreasing(InsertDesc(x, t, key), key, idOf)
    decreases |t|
  {
    if t == [] || key(t[0]) <= key(x) {
      ConsTiesIncreasing(x, t, key, idOf);
    } else {
      var tail := t[1..];
      TailTiesIncreasing(t, key, idOf);
      InsertDescStable(x, tail, key, idOf);
      var rest := InsertDesc(x, tail, key);
      InsertDescFrom(x, tail, key);
      forall j | 0 <= j < |rest| && key(t[0]) == key(rest[j]) ensures idOf(t[0]) < idOf(rest[j]) {
        assert rest[j] in rest;
        if rest[j] != x {
          var m :| 0 <= m < |tail| && tail[m] == rest[j];
          assert t[m + 1] == rest[j];
        }
      }
      ConsTiesIncreasing(t[0], rest, key, idOf);
    }
  }

  /** The sort is stable: elements with equal keys keep the order of the input. */
  lemma {:induction false} SortDescStable<T>(s: seq<T>, key: T -> real, idOf: T -> int)
    requires IncreasingBy(s, idOf)
    ensures TiesIncreasing(SortDesc(s, key), key, idOf)
    decreases |s|
  {
    if s != [] {
      var tail := s[1..];
      assert IncreasingBy(tail, idOf) by {
        forall i, j | 0 <= i < j < |tail| ensures idOf(tail[i]) < idOf(tail[j]) {
          assert tail[i] == s[i + 1] && tail[j] == s[j + 1];
        }
      }
      SortDescStable(tail, key, idOf);
      var sorted := SortDesc(tail, key);
      forall i | 0 <= i < |sorted| ensures idOf(s[0]) < idOf(sorted[i]) {
        assert sorted[i] in multiset(tail);
        var m :| 0 <= m < |tail| && tail[m] == sorted[i];
        assert s[m + 1] == sorted[i];
      }
      InsertDescStable(s[0], sorted, key, idOf);
    }
  }

  /** What is cut off the end of a sorted sequence ranks below what is kept. */
  lemma PrefixDominates<T>(sorted: seq<T>, r: seq<T>, key: T -> real)
    requires SortedDesc(sorted, key) && r <= sorted
    ensures SortedDesc(r, key)
    ensures forall x, j :: x in sorted && x !in r && 0 <= j < |r| ==> key(x) <= key(r[j])
  {
    forall x, j | x in sorted && x !in r && 0 <= j < |r| ensures key(x) <= key(r[j]) {
      var k :| 0 <= k < |sorted| && sorted[k] == x;
      assert r[j] == sorted[j];
    }
  }

  lemma PrefixSubMultiset<T>(sorted: seq<T>, r: seq<T>)
    requires r <= sorted
    ensures multiset(r) <= multiset(sorted)
  {
    assert sorted == r + sorted[|r|..];
  }

  lemma SameElements<T>(s: seq<T>, sorted: seq<T>)
    requires multiset(s) == multiset(sorted)
    ensures forall i :: 0 <= i < |s| ==> s[i] in sorted
  {
    forall i | 0 <= i < |s| ensures s[i] in sorted {
      assert s[i] in multiset(s);
    }
  }

  /**
   * `arr.sort(byKeyDescending).slice(0, n)`: the `n` elements with the
   * largest keys, largest first. Whatever is left out has a key no larger
   * than anything kept.
   */
  function TopBy<T>(s: seq<T>, key: T -> real, n: int): (r: seq<T>)
    ensures multiset(r) <= multiset(s)
    ensures SortedDesc(r, key)
    ensures n >= 0 ==> |r| == Min(n, |s|)
    ensures forall i, j :: 0 <= i < |s| && 0 <= j < |r| && s[i] !in r ==> key(s[i]) <= key(r[j])
  {
    var sorted := SortDesc(s, key);
    var r := Take(sorted, n);
    PrefixSubMultiset(sorted, r);
    PrefixDominates(sorted, r, key);
    SameElements(s, sorted);
    r
  }

  /**
   * Cutting a sequence whose ties are in order keeps the ties of the prefix
   * in order, and an element cut off that ties with a kept one comes later.
   */
  lemma PrefixTies<T>(s: seq<T>, r: seq<T>, key: T -> real, idOf: T -> int)
    requires r <= s
    requires TiesIncreasing(s, key, idOf)
    ensures TiesIncreasing(r, key, idOf)
    ensures forall x, j :: x in s && x !in r && 0 <= j < |r| && key(x) == key(r[j]) ==> idOf(r[j]) < idOf(x)
  {
    assert forall q :: 0 <= q < |r| ==> r[q] == s[q];
    forall x, j | x in s && x !in r && 0 <= j < |r| && key(x) == key(r[j]) ensures idOf(r[j]) < idOf(x) {
      var p :| 0 <= p < |s| && s[p] == x;
      assert j < p;
    }
  }

  /**
   * `TopBy` on a sequence in increasing `idOf` order keeps ties in that
   * order, and an element cut off with the same key as a kept one comes
   * later in the input.
   */
  lemma TopByStable<T>(s: seq<T>, key: T -> real, n: int, idOf: T -> int)
    requires IncreasingBy(s, idOf)
    ensures TiesIncreasing(TopBy(s, key, n), key, idOf)
    ensures var r := TopBy(s, key, n);
      forall i, j :: 0 <= i < |s| && 0 <= j < |r| && s[i] !in r && key(s[i]) == key(r[j]) ==> idOf(r[j]) < idOf(s[i])
  {
    var sorted := SortDesc(s, key);
    var r := TopBy(s, key, n);
    assert r == Take(sorted, n);
    SortDescStable(s, key, idOf);
    PrefixTies(sorted, r, key, idOf);
    forall i | 0 <= i < |s| ensures s[i] in sorted {
      assert s[i] in multiset(sorted);
    }
  }
}
