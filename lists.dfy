/**
 * Sequence helpers standing in for the JavaScript array operations the
 * dashboard uses: `filter`, `flatMap`, `slice(-n)`, `reverse` and the
 * comparator-based, stable `Array.prototype.sort`.
 *
 * Every comparator in the source is a lexicographic chain
 * `(a1 - b1) || (a2 - b2) || a.label.localeCompare(b.label)`; it is modelled
 * by a sort key `Key(primary, secondary, tiebreak)` compared lexicographically.
 */
module Lists {

  /** `s.filter(p)`: the elements that satisfy `p`, in their original order. */
  function Filter<T(!new)>(s: seq<T>, p: T -> bool): (r: seq<T>)
    ensures |r| <= |s|
    ensures forall x :: x in r <==> x in s && p(x)
    ensures forall i :: 0 <= i < |r| ==> p(r[i])
  {
    if s == [] then []
    else (if p(s[0]) then [s[0]] else []) + Filter(s[1..], p)
  }

  /** Filtering keeps every satisfying element as often as it occurs, and drops the rest. */
  lemma {:induction false} FilterMultiplicity<T(!new)>(s: seq<T>, p: T -> bool, x: T)
    ensures multiset(Filter(s, p))[x] == if p(x) then multiset(s)[x] else 0
  {
    if s != [] {
      assert s == [s[0]] + s[1..];
      FilterMultiplicity(s[1..], p, x);
    }
  }

  /** Filtering distributes over concatenation, so the kept elements stay in order. */
  lemma {:induction false} FilterAppend<T(!new)>(a: seq<T>, b: seq<T>, p: T -> bool)
    ensures Filter(a + b, p) == Filter(a, p) + Filter(b, p)
  {
    if a == [] {
      assert a + b == b;
    } else {
      assert (a + b)[0] == a[0];
      assert (a + b)[1..] == a[1..] + b;
      FilterAppend(a[1..], b, p);
    }
  }

  /** The number of elements that satisfy `p` (`s.filter(p).length`). */
  function Count<T(!new)>(s: seq<T>, p: T -> bool): (n: nat)
    ensures n <= |s|
    ensures n == 0 <==> forall i :: 0 <= i < |s| ==> !p(s[i])
    ensures n == |Filter(s, p)|
  {
    if s == [] then 0
    else (if p(s[0]) then 1 else 0) + Count(s[1..], p)
  }

  /** `ss.flat()`: the concatenation of the inner sequences, in order. */
  function Concat<T(!new)>(ss: seq<seq<T>>): (r: seq<T>)
    ensures forall i, x :: 0 <= i < |ss| && x in ss[i] ==> x in r
    ensures forall x :: x in r ==> exists i :: 0 <= i < |ss| && x in ss[i]
    ensures |r| == TotalLength(ss)
  {
    if ss == [] then [] else ss[0] + Concat(ss[1..])
  }

  /** The sum of the inner lengths. */
  function TotalLength<T>(ss: seq<seq<T>>): nat {
    if ss == [] then 0 else |ss[0]| + TotalLength(ss[1..])
  }

  /** Flattening distributes over concatenation, so the inner sequences stay in order. */
  lemma {:induction false} ConcatAppend<T(!new)>(a: seq<seq<T>>, b: seq<seq<T>>)
    ensures Concat(a + b) == Concat(a) + Concat(b)
  {
    if a == [] {
      assert a + b == b;
    } else {
      assert (a + b)[0] == a[0];
      assert (a + b)[1..] == a[1..] + b;
      ConcatAppend(a[1..], b);
    }
  }

  /**
   * `s.slice(-n).reverse()` for `n >= 0`: the last `n` elements (all of them
   * when there are fewer), last first.
   */
  function ReversedTail<T>(s: seq<T>, n: nat): (r: seq<T>)
    ensures |r| == if |s| < n then |s| else n
    ensures forall i :: 0 <= i < |r| ==> r[i] == s[|s| - 1 - i]
  {
    if n == 0 || s == [] then [] else [s[|s| - 1]] + ReversedTail(s[..|s| - 1], n - 1)
  }

  // ---------------------------------------------------------------------
  // Orders
  // ---------------------------------------------------------------------

  /**
   * Code-point lexicographic order on strings: the total order used where the
   * source calls `label.localeCompare`.
   */
  predicate StrLeq(a: string, b: string) {
    if a == [] then true
    else if b == [] then false
    else if a[0] != b[0] then a[0] < b[0]
    else StrLeq(a[1..], b[1..])
  }

  lemma {:induction false} StrLeqReflexive(a: string)
    ensures StrLeq(a, a)
  {
    if a != [] { StrLeqReflexive(a[1..]); }
  }

  lemma {:induction false} StrLeqTotal(a: string, b: string)
    ensures StrLeq(a, b) || StrLeq(b, a)
  {
    if a != [] && b != [] && a[0] == b[0] {
      StrLeqTotal(a[1..], b[1..]);
    }
  }

  lemma {:induction false} StrLeqTransitive(a: string, b: string, c: string)
    requires StrLeq(a, b) && StrLeq(b, c)
    ensures StrLeq(a, c)
  {
    if a != [] && b != [] && c != [] && a[0] == b[0] && b[0] == c[0] {
      StrLeqTransitive(a[1..], b[1..], c[1..]);
    }
  }

  lemma {:induction false} StrLeqAntisymmetric(a: string, b: string)
    requires StrLeq(a, b) && StrLeq(b, a)
    ensures a == b
  {
    if a != [] && b != [] {
      StrLeqAntisymmetric(a[1..], b[1..]);
      assert a == [a[0]] + a[1..] && b == [b[0]] + b[1..];
    }
  }

  /** A comparator chain `(p1 - p2) || (s1 - s2) || t1.localeCompare(t2)`. */
  datatype Key = Key(primary: real, secondary: real, tiebreak: string)

  /** `cmp(a, b) <= 0` for the comparator whose chain is the key. */
  predicate KeyLeq(k: Key, l: Key) {
    k.primary < l.primary
    || (k.primary == l.primary
        && (k.secondary < l.secondary
            || (k.secondary == l.secondary && StrLeq(k.tiebreak, l.tiebreak))))
  }

  lemma KeyLeqReflexive(k: Key)
    ensures KeyLeq(k, k)
  {
    StrLeqReflexive(k.tiebreak);
  }

  lemma KeyLeqTotal(k: Key, l: Key)
    ensures KeyLeq(k, l) || KeyLeq(l, k)
  {
    StrLeqTotal(k.tiebreak, l.tiebreak);
  }

  lemma KeyLeqTransitive(k: Key, l: Key, m: Key)
    requires KeyLeq(k, l) && KeyLeq(l, m)
    ensures KeyLeq(k, m)
  {
    if k.primary == l.primary == m.primary && k.secondary == l.secondary == m.secondary {
      StrLeqTransitive(k.tiebreak, l.tiebreak, m.tiebreak);
    }
  }

  lemma KeyLeqAntisymmetric(k: Key, l: Key)
    requires KeyLeq(k, l) && KeyLeq(l, k)
    ensures k == l
  {
    if k.primary == l.primary && k.secondary == l.secondary {
      StrLeqAntisymmetric(k.tiebreak, l.tiebreak);
    }
  }

  /** `s` is in non-decreasing key order. */
  ghost predicate SortedBy<T>(s: seq<T>, key: T -> Key) {
    forall i, j :: 0 <= i < j < |s| ==> KeyLeq(key(s[i]), key(s[j]))
  }

  /** Two positions of a sorted sequence, in order. */
  lemma SortedAt<T>(s: seq<T>, key: T -> Key, i: int, j: int)
    requires SortedBy(s, key) && 0 <= i < j < |s|
    ensures KeyLeq(key(s[i]), key(s[j]))
  {
  }

  // ---------------------------------------------------------------------
  // The stable sort
  // ---------------------------------------------------------------------

  /** Inserts `x` in front of the first element it does not come after. */
  function Insert<T>(x: T, s: seq<T>, key: T -> Key): (r: seq<T>)
    ensures |r| == |s| + 1
    ensures multiset(r) == multiset(s) + multiset{x}
  {
    if s == [] || KeyLeq(key(x), key(s[0])) then [x] + s
    else
      assert s == [s[0]] + s[1..];
      [s[0]] + Insert(x, s[1..], key)
  }

  /**
   * `[...s].sort(cmp)`, where `cmp` is the comparator chain given by `key`.
   * Elements with equal keys keep their input order, as the ECMAScript sort
   * (stable since ES2019) does.
   */
  function SortByKey<T>(s: seq<T>, key: T -> Key): (r: seq<T>)
    ensures |r| == |s|
    ensures multiset(r) == multiset(s)
  {
    if s == [] then []
    else
      assert s == [s[0]] + s[1..];
      Insert(s[0], SortByKey(s[1..], key), key)
  }

  lemma {:induction false} InsertSorted<T>(x: T, s: seq<T>, key: T -> Key)
    requires SortedBy(s, key)
    ensures SortedBy(Insert(x, s, key), key)
  {
    if s == [] {
    } else if KeyLeq(key(x), key(s[0])) {
      forall j | 0 <= j < |s| ensures KeyLeq(key(x), key(s[j])) {
        if j > 0 {
          SortedAt(s, key, 0, j);
          KeyLeqTransitive(key(x), key(s[0]), key(s[j]));
        }
      }
      ConsSorted(x, s, key);
    } else {
      InsertSorted(x, s[1..], key);
      var t := Insert(x, s[1..], key);
      KeyLeqTotal(key(x), key(s[0]));
      forall j | 0 <= j < |t| ensures KeyLeq(key(s[0]), key(t[j])) {
        assert t[j] in multiset(t);
        if t[j] != x {
          assert t[j] in multiset(s[1..]);
          var k :| 0 <= k < |s[1..]| && s[1..][k] == t[j];
          assert s[k + 1] == t[j];
          SortedAt(s, key, 0, k + 1);
        }
      }
      ConsSorted(s[0], t, key);
    }
  }

  /** A sorted sequence stays sorted behind a head no greater than any of it. */
  lemma ConsSorted<T>(h: T, t: seq<T>, key: T -> Key)
    requires SortedBy(t, key)
    requires forall j :: 0 <= j < |t| ==> KeyLeq(key(h), key(t[j]))
    ensures SortedBy([h] + t, key)
  {
    var r := [h] + t;
    forall i, j | 0 <= i < j < |r| ensures KeyLeq(key(r[i]), key(r[j])) {
      assert r[j] == t[j - 1];
      if i > 0 {
        assert r[i] == t[i - 1];
        SortedAt(t, key, i - 1, j - 1);
      }
    }
  }

  /** The sort's result is in key order. */
  lemma {:induction false} SortByKeySorted<T>(s: seq<T>, key: T -> Key)
    ensures SortedBy(SortByKey(s, key), key)
  {
    if s != [] {
      SortByKeySorted(s[1..], key);
      InsertSorted(s[0], SortByKey(s[1..], key), key);
    }
  }

  /** The index of the first element whose key is minimal. */
  function FirstMinIndex<T>(s: seq<T>, key: T -> Key): (k: nat)
    requires s != []
    ensures k < |s|
    ensures forall j :: 0 <= j < |s| ==> KeyLeq(key(s[k]), key(s[j]))
    ensures forall j :: 0 <= j < k ==> !KeyLeq(key(s[j]), key(s[k]))
  {
    if |s| == 1 then KeyLeqReflexive(key(s[0])); 0
    else
      var k := FirstMinIndex(s[1..], key);
      assert forall j :: 1 <= j < |s| ==> KeyLeq(key(s[k + 1]), key(s[j])) by {
        forall j | 1 <= j < |s| ensures KeyLeq(key(s[k + 1]), key(s[j])) {
          assert s[1..][j - 1] == s[j];
        }
      }
      if KeyLeq(key(s[0]), key(s[k + 1])) then
        assert forall j :: 0 <= j < |s| ==> KeyLeq(key(s[0]), key(s[j])) by {
          forall j | 0 <= j < |s| ensures KeyLeq(key(s[0]), key(s[j])) {
            if j > 0 { KeyLeqTransitive(key(s[0]), key(s[k + 1]), key(s[j])); }
            else { KeyLeqReflexive(key(s[0])); }
          }
        }
        0
      else
        KeyLeqTotal(key(s[0]), key(s[k + 1]));
        assert forall j :: 1 <= j < k + 1 ==> !KeyLeq(key(s[j]), key(s[k + 1])) by {
          forall j | 1 <= j < k + 1 ensures !KeyLeq(key(s[j]), key(s[k + 1])) {
            assert s[1..][j - 1] == s[j];
          }
        }
        k + 1
  }

  /**
   * `[...s].sort(cmp)[0]` is the first element of `s`, in input order, whose
   * key is minimal: stability makes the earliest of equal-key elements win.
   */
  lemma {:induction false} SortHead<T>(s: seq<T>, key: T -> Key)
    requires s != []
    ensures SortByKey(s, key)[0] == s[FirstMinIndex(s, key)]
  {
    if |s| > 1 {
      SortHead(s[1..], key);
      assert s[1..][FirstMinIndex(s[1..], key)] == s[FirstMinIndex(s[1..], key) + 1];
    }
  }

  /** `filter` keeps a sorted sequence sorted. */
  lemma {:induction false} FilterSorted<T(!new)>(s: seq<T>, p: T -> bool, key: T -> Key)
    requires SortedBy(s, key)
    ensures SortedBy(Filter(s, p), key)
  {
    if s != [] {
      FilterSorted(s[1..], p, key);
      var t := Filter(s[1..], p);
      forall j | 0 <= j < |t| ensures KeyLeq(key(s[0]), key(t[j])) {
        assert t[j] in s[1..];
      }
    }
  }

  /** Sorting neither adds nor drops elements. */
  lemma SortByKeyMembers<T>(s: seq<T>, key: T -> Key, x: T)
    ensures x in SortByKey(s, key) <==> x in s
  {
    assert x in SortByKey(s, key) <==> x in multiset(SortByKey(s, key));
  }

  /**
   * `[...s].sort(cmp)[0]` for a non-empty `s`: a member of `s` whose key is
   * least.
   */
  function SortFirst<T(!new)>(s: seq<T>, key: T -> Key): (m: T)
    requires s != []
    ensures m in s
    ensures forall x :: x in s ==> KeyLeq(key(m), key(x))
  {
    SortHead(s, key);
    SortByKey(s, key)[0]
  }

  /** The last `n` elements of a sorted sequence, reversed, are in descending key order. */
  lemma SortedReverseTailDescending<T>(s: seq<T>, key: T -> Key, n: nat)
    requires SortedBy(s, key)
    ensures var r := ReversedTail(s, n);
      forall i, j :: 0 <= i < j < |r| ==> KeyLeq(key(r[j]), key(r[i]))
  {
    var r := ReversedTail(s, n);
    forall i, j | 0 <= i < j < |r| ensures KeyLeq(key(r[j]), key(r[i])) {
      assert r[i] == s[|s| - 1 - i] && r[j] == s[|s| - 1 - j];
      SortedAt(s, key, |s| - 1 - j, |s| - 1 - i);
    }
  }

  /**
   * Every element the last `n` (n > 0) of a sorted sequence leave out has a
   * key no greater than that of the first element kept.
   */
  lemma SortedTailCovers<T>(s: seq<T>, key: T -> Key, n: nat, k: nat)
    requires SortedBy(s, key) && n > 0 && k < |s|
    ensures var r := ReversedTail(s, n);
      s[k] in r || KeyLeq(key(s[k]), key(r[|r| - 1]))
  {
    var r := ReversedTail(s, n);
    if k >= |s| - |r| {
      assert r[|s| - 1 - k] == s[k];
    } else {
      assert r[|r| - 1] == s[|s| - |r|];
      SortedAt(s, key, k, |s| - |r|);
    }
  }

  // ---------------------------------------------------------------------
  // Toggling a selection
  // ---------------------------------------------------------------------

  /** `s.filter(y => y !== x)`: every occurrence of `x` removed. */
  function Without<T(==,!new)>(s: seq<T>, x: T): (r: seq<T>)
    ensures |r| <= |s|
    ensures x !in r
    ensures forall y :: y != x ==> (y in r <==> y in s)
  {
    if s == [] then []
    else
      assert forall y :: y in s <==> y == s[0] || y in s[1..];
      (if s[0] == x then [] else [s[0]]) + Without(s[1..], x)
  }

  /** Removing an element that is not there changes nothing. */
  lemma {:induction false} WithoutAbsent<T(!new)>(s: seq<T>, x: T)
    requires x !in s
    ensures Without(s, x) == s
  {
    if s != [] {
      assert s[1..] == s[1..];
      assert x !in s[1..];
      WithoutAbsent(s[1..], x);
    }
  }

  lemma {:induction false} WithoutAppend<T(!new)>(s: seq<T>, t: seq<T>, x: T)
    ensures Without(s + t, x) == Without(s, x) + Without(t, x)
  {
    if s == [] {
      assert s + t == t;
    } else {
      assert (s + t)[0] == s[0];
      assert (s + t)[1..] == s[1..] + t;
      WithoutAppend(s[1..], t, x);
    }
  }

  /**
   * `prev.includes(x) ? prev.filter(y => y !== x) : [...prev, x]`: a present
   * element is removed everywhere, an absent one is appended at the end; no
   * other element comes or goes.
   */
  function Toggle<T(==,!new)>(s: seq<T>, x: T): (r: seq<T>)
    ensures x in r <==> x !in s
    ensures forall y :: y != x ==> (y in r <==> y in s)
    ensures x !in s ==> |r| == |s| + 1 && r[..|s|] == s && r[|s|] == x
  {
    if x in s then Without(s, x) else s + [x]
  }

  /** Toggling an absent element twice restores the list. */
  lemma ToggleTwiceAbsent<T(!new)>(s: seq<T>, x: T)
    requires x !in s
    ensures Toggle(Toggle(s, x), x) == s
  {
    WithoutAppend(s, [x], x);
    WithoutAbsent(s, x);
    assert Without([x], x) == [];
  }

  /** Toggling a present element twice moves it, once, to the end. */
  lemma ToggleTwicePresent<T(!new)>(s: seq<T>, x: T)
    requires x in s
    ensures Toggle(Toggle(s, x), x) == Without(s, x) + [x]
  {
  }
}
