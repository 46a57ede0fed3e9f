/** Shared vocabulary: optional values, results that carry the source's exceptions,
    and the stable sort behind Python's `sorted` and `list.sort`. */
module Prelude {

  datatype Option<+T> = None | Some(value: T)

  datatype Result<+T, +E> = Ok(value: T) | Err(error: E)

  /** Python's code-point order on strings. */
  predicate StringLeq(a: string, b: string) {
    a == [] || (b != [] && (a[0] < b[0] || (a[0] == b[0] && StringLeq(a[1..], b[1..]))))
  }

  /** The order spelled out: `a` ends first, or has the smaller character at the first place where they differ. */
  ghost predicate ComesBefore(a: string, b: string) {
    exists k | 0 <= k <= |a| && k < |b| :: a[..k] == b[..k] && (k == |a| || a[k] < b[k])
  }

  lemma {:induction false} SameFirstCharacter(a: string, b: string)
    requires a != [] && b != [] && a[0] == b[0]
    ensures ComesBefore(a, b) <==> ComesBefore(a[1..], b[1..])
  {
    var u, v := a[1..], b[1..];
    if ComesBefore(u, v) {
      var k :| 0 <= k <= |u| && k < |v| && u[..k] == v[..k] && (k == |u| || u[k] < v[k]);
      assert a[..k + 1] == [a[0]] + u[..k] && b[..k + 1] == [b[0]] + v[..k];
    }
    if ComesBefore(a, b) {
      var k :| 0 <= k <= |a| && k < |b| && a[..k] == b[..k] && (k == |a| || a[k] < b[k]);
      assert k > 0 && u[..k - 1] == a[..k][1..] && v[..k - 1] == b[..k][1..];
    }
  }

  lemma {:induction false} FirstCharacterDecides(a: string, b: string)
    requires a == [] || b == [] || a[0] != b[0]
    ensures ComesBefore(a, b) <==> b != [] && (a == [] || a[0] < b[0])
  {
    if b != [] {
      assert a[..0] == b[..0];
      forall k | 0 < k <= |a| && k < |b| ensures a[..k] != b[..k] {
        assert a[..k][0] == a[0] && b[..k][0] == b[0];
      }
    }
  }

  lemma {:induction false} StringLeqMeans(a: string, b: string)
    ensures StringLeq(a, b) <==> a == b || ComesBefore(a, b)
  {
    hide ComesBefore;
    if a != [] && b != [] && a[0] == b[0] {
      SameFirstCharacter(a, b);
      StringLeqMeans(a[1..], b[1..]);
      assert a == [a[0]] + a[1..] && b == [b[0]] + b[1..];
    } else {
      FirstCharacterDecides(a, b);
    }
  }

  lemma {:induction false} StringLeqTotal(a: string, b: string)
    ensures StringLeq(a, b) || StringLeq(b, a)
    ensures StringLeq(a, b) && StringLeq(b, a) ==> a == b
  {
    if a != [] && b != [] && a[0] == b[0] {
      StringLeqTotal(a[1..], b[1..]);
      assert a == [a[0]] + a[1..] && b == [b[0]] + b[1..];
    }
  }

  lemma {:induction false} StringLeqTransitive(a: string, b: string, c: string)
    requires StringLeq(a, b) && StringLeq(b, c)
    ensures StringLeq(a, c)
  {
    if a != [] && a[0] == b[0] == c[0] {
      StringLeqTransitive(a[1..], b[1..], c[1..]);
    }
  }

  ghost predicate TotalPreorder<T(!new)>(leq: (T, T) -> bool) {
    && (forall x, y :: leq(x, y) || leq(y, x))
    && (forall x, y, z :: leq(x, y) && leq(y, z) ==> leq(x, z))
  }

  lemma {:induction false} StringLeqIsTotal()
    ensures TotalPreorder(StringLeq)
  {
    forall a: string, b: string ensures StringLeq(a, b) || StringLeq(b, a) {
      StringLeqTotal(a, b);
    }
    forall a: string, b: string, c: string | StringLeq(a, b) && StringLeq(b, c) ensures StringLeq(a, c) {
      StringLeqTransitive(a, b, c);
    }
  }

  ghost predicate SortedBy<T>(s: seq<T>, leq: (T, T) -> bool) {
    forall i, j | 0 <= i < j < |s| :: leq(s[i], s[j])
  }

  function Insert<T>(x: T, s: seq<T>, leq: (T, T) -> bool): seq<T> {
    if s == [] || leq(x, s[0]) then [x] + s else [s[0]] + Insert(x, s[1..], leq)
  }

  /** The stable sort by `leq`. */
  function Sort<T>(s: seq<T>, leq: (T, T) -> bool): seq<T> {
    if s == [] then [] else Insert(s[0], Sort(s[1..], leq), leq)
  }

  lemma {:induction false} InsertPermutes<T>(x: T, s: seq<T>, leq: (T, T) -> bool)
    ensures multiset(Insert(x, s, leq)) == multiset{x} + multiset(s)
    ensures |Insert(x, s, leq)| == |s| + 1
  {
    if s != [] && !leq(x, s[0]) {
      InsertPermutes(x, s[1..], leq);
      assert s == [s[0]] + s[1..];
    }
  }

  lemma {:induction false} SortPermutes<T>(s: seq<T>, leq: (T, T) -> bool)
    ensures multiset(Sort(s, leq)) == multiset(s)
    ensures |Sort(s, leq)| == |s|
    ensures forall x :: x in Sort(s, leq) <==> x in s
  {
    if s != [] {
      SortPermutes(s[1..], leq);
      InsertPermutes(s[0], Sort(s[1..], leq), leq);
      assert s == [s[0]] + s[1..];
    }
    assert forall x :: x in Sort(s, leq) <==> x in multiset(Sort(s, leq));
    assert forall x :: x in s <==> x in multiset(s);
  }

  lemma {:induction false} InsertSorts<T(!new)>(x: T, s: seq<T>, leq: (T, T) -> bool)
    requires TotalPreorder(leq) && SortedBy(s, leq)
    ensures SortedBy(Insert(x, s, leq), leq)
  {
    if s != [] && !leq(x, s[0]) {
      var rest := Insert(x, s[1..], leq);
      InsertSorts(x, s[1..], leq);
      InsertPermutes(x, s[1..], leq);
      forall y | y in rest ensures leq(s[0], y) {
        assert y in multiset(rest);
        assert y == x || y in s[1..];
      }
      assert forall j | 0 <= j < |rest| :: rest[j] in rest;
    }
  }

  lemma {:induction false} SortSorts<T(!new)>(s: seq<T>, leq: (T, T) -> bool)
    requires TotalPreorder(leq)
    ensures SortedBy(Sort(s, leq), leq)
  {
    if s != [] {
      SortSorts(s[1..], leq);
      InsertSorts(s[0], Sort(s[1..], leq), leq);
    }
  }

  lemma {:induction false} NoRepeats<T>(s: seq<T>, elements: set<T>)
    requires multiset(s) == multiset(elements)
    ensures forall i, j | 0 <= i < j < |s| :: s[i] != s[j]
  {
    forall i, j | 0 <= i < j < |s| ensures s[i] != s[j] {
      assert s == s[..i] + [s[i]] + s[i + 1..j] + [s[j]] + s[j + 1..];
      assert multiset(elements)[s[i]] <= 1;
    }
  }

  /** `sorted` of a set. */
  method SortedSet<T(==,!new)>(elements: set<T>, leq: (T, T) -> bool) returns (sorted: seq<T>)
    ensures multiset(sorted) == multiset(elements)
    ensures forall x :: x in sorted <==> x in elements
    ensures forall i, j | 0 <= i < j < |sorted| :: sorted[i] != sorted[j]
    ensures TotalPreorder(leq) ==> SortedBy(sorted, leq)
  {
    var rest, listed := elements, [];
    while rest != {}
      invariant rest <= elements
      invariant forall x :: x in elements <==> x in rest || x in listed
      invariant forall x | x in listed :: x !in rest
      invariant multiset(listed) == multiset(elements - rest)
    {
      var x :| x in rest;
      assert elements - (rest - {x}) == (elements - rest) + {x};
      listed, rest := listed + [x], rest - {x};
    }
    assert elements - rest == elements;
    sorted := Sort(listed, leq);
    SortPermutes(listed, leq);
    if TotalPreorder(leq) {
      SortSorts(listed, leq);
    }
    NoRepeats(sorted, elements);
  }

  ghost predicate FirstLeast<T>(s: seq<T>, k: nat, leq: (T, T) -> bool) {
    && k < |s|
    && (forall j | 0 <= j < |s| :: leq(s[k], s[j]))
    && (forall j | 0 <= j < k :: !leq(s[j], s[k]))
  }

  /** Stability: the head of the sorted sequence is the first of its least elements. */
  lemma {:induction false} SortHead<T(!new)>(s: seq<T>, leq: (T, T) -> bool) returns (k: nat)
    requires TotalPreorder(leq) && s != []
    ensures FirstLeast(s, k, leq) && Sort(s, leq) != [] && Sort(s, leq)[0] == s[k]
  {
    k := 0;
    if |s| > 1 {
      var rest := s[1..];
      var j := SortHead(rest, leq);
      assert forall i | 0 < i < |s| :: s[i] == rest[i - 1];
      if !leq(s[0], rest[j]) {
        k := j + 1;
      }
    }
  }

  lemma {:induction false} HeadIsLeast<T>(s: seq<T>, x: T, leq: (T, T) -> bool)
    requires SortedBy(s, leq) && x in s
    ensures x == s[0] || leq(s[0], x)
  {}

  lemma {:induction false} TailWithoutHead<T>(s: seq<T>)
    requires s != []
    ensures multiset(s[1..]) == multiset(s) - multiset{s[0]}
  {
    assert s == [s[0]] + s[1..];
  }

  /** Two sorted listings of the same elements agree when no two different elements tie. */
  lemma {:induction false} SortedListingsAgree<T(!new)>(a: seq<T>, b: seq<T>, leq: (T, T) -> bool)
    requires multiset(a) == multiset(b) && SortedBy(a, leq) && SortedBy(b, leq)
    requires forall x, y | x in a && y in a && leq(x, y) && leq(y, x) :: x == y
    ensures a == b
  {
    assert |multiset(a)| == |a| && |multiset(b)| == |b|;
    if a != [] {
      assert a[0] in multiset(b) && b[0] in multiset(a);
      HeadIsLeast(a, b[0], leq);
      HeadIsLeast(b, a[0], leq);
      TailWithoutHead(a);
      TailWithoutHead(b);
      SortedListingsAgree(a[1..], b[1..], leq);
      assert a == [a[0]] + a[1..] && b == [b[0]] + b[1..];
    }
  }

  // ---------------------------------------------------------------- keyed listings

  ghost predicate UniqueBy<T, K>(s: seq<T>, key: T -> K) {
    forall i, j | 0 <= i < j < |s| :: key(s[i]) != key(s[j])
  }

  /** A dictionary comprehension: the last item of a key wins. */
  function TableBy<T, K>(items: seq<T>, key: T -> K): map<K, T> {
    if items == [] then map[]
    else var last := items[|items| - 1]; TableBy(items[..|items| - 1], key)[key(last) := last]
  }

  ghost predicate HasKey<T, K>(items: seq<T>, key: T -> K, k: K) {
    exists i | 0 <= i < |items| :: key(items[i]) == k
  }

  /** The item at `i` has the key, and none after it has. */
  ghost predicate IsLast<T, K>(items: seq<T>, key: T -> K, i: nat, k: K) {
    i < |items| && key(items[i]) == k && forall j | i < j < |items| :: key(items[j]) != k
  }

  lemma {:induction false} KeyOfMember<T, K>(items: seq<T>, key: T -> K, k: K)
    ensures HasKey(items, key, k) <==> exists x | x in items :: key(x) == k
  {
    if x :| x in items && key(x) == k {
      var i :| 0 <= i < |items| && items[i] == x;
      assert key(items[i]) == k;
    }
  }

  lemma {:induction false} TableKey<T, K>(items: seq<T>, key: T -> K, k: K)
    ensures k in TableBy(items, key) <==> HasKey(items, key, k)
  {
    if items != [] {
      var n := |items| - 1;
      var init := items[..n];
      TableKey(init, key, k);
      assert forall i | 0 <= i < n :: items[i] == init[i];
      if HasKey(init, key, k) {
        var i :| 0 <= i < n && key(init[i]) == k;
        assert key(items[i]) == k;
      }
    }
  }

  lemma {:induction false} LastMayRepeat<T, K>(items: seq<T>, key: T -> K)
    requires items != []
    ensures var n := |items| - 1;
      UniqueBy(items, key) <==> UniqueBy(items[..n], key) && !HasKey(items[..n], key, key(items[n]))
  {
    var n := |items| - 1;
    var init := items[..n];
    assert forall i | 0 <= i < n :: items[i] == init[i];
    if HasKey(init, key, key(items[n])) {
      var i :| 0 <= i < n && key(init[i]) == key(items[n]);
      assert key(items[i]) == key(items[n]);
    }
  }

  /** The dictionary is as large as the list exactly when no key repeats. */
  lemma {:induction false} TableSize<T, K>(items: seq<T>, key: T -> K)
    ensures |TableBy(items, key)| <= |items|
    ensures |TableBy(items, key)| == |items| <==> UniqueBy(items, key)
  {
    if items != [] {
      var n := |items| - 1;
      var init, last := items[..n], items[n];
      TableSize(init, key);
      TableKey(init, key, key(last));
      LastMayRepeat(items, key);
      var table := TableBy(init, key);
      assert TableBy(items, key).Keys == table.Keys + {key(last)};
      assert |TableBy(items, key)| == |table.Keys + {key(last)}|;
      if key(last) in table {
        assert table.Keys + {key(last)} == table.Keys;
      }
    }
  }

  lemma {:induction false} TableLooksUp<T, K>(items: seq<T>, key: T -> K)
    requires UniqueBy(items, key)
    ensures forall x | x in items :: key(x) in TableBy(items, key) && TableBy(items, key)[key(x)] == x
  {
    if items != [] {
      var n := |items| - 1;
      assert items == items[..n] + [items[n]];
      TableLooksUp(items[..n], key);
    }
  }

  lemma {:induction false} TableHolds<T, K>(items: seq<T>, key: T -> K, k: K)
    requires k in TableBy(items, key)
    ensures TableBy(items, key)[k] in items && key(TableBy(items, key)[k]) == k
  {
    if items != [] {
      var n := |items| - 1;
      assert items == items[..n] + [items[n]];
      if key(items[n]) != k {
        TableHolds(items[..n], key, k);
      }
    }
  }

  /** The last item of a key is the one that is looked up. */
  lemma {:induction false} TableHoldsLast<T, K>(items: seq<T>, key: T -> K, k: K)
    requires k in TableBy(items, key)
    ensures exists i | 0 <= i < |items| :: items[i] == TableBy(items, key)[k] && IsLast(items, key, i, k)
  {
    if items != [] {
      var n := |items| - 1;
      var init := items[..n];
      assert items == init + [items[n]];
      if key(items[n]) == k {
        assert IsLast(items, key, n, k);
      } else {
        TableHoldsLast(init, key, k);
        var i :| 0 <= i < n && init[i] == TableBy(init, key)[k] && IsLast(init, key, i, k);
        assert items[i] == TableBy(items, key)[k] && IsLast(items, key, i, k);
      }
    }
  }

  lemma {:induction false} UniqueByTrivially<T, K>(t: seq<T>, key: T -> K)
    requires t == []
    ensures UniqueBy(t, key)
  {}

  lemma {:induction false} OthersDiffer<T, K>(s: seq<T>, k: nat, key: T -> K)
    requires UniqueBy(s, key) && k < |s|
    ensures UniqueBy(s[..k] + s[k + 1..], key)
    ensures var rest := s[..k] + s[k + 1..]; forall i | 0 <= i < |rest| :: key(rest[i]) != key(s[k])
  {
    var rest := s[..k] + s[k + 1..];
    assert forall i | 0 <= i < |rest| :: rest[i] == s[if i < k then i else i + 1];
  }

  lemma {:induction false} HeadIsUnique<T, K>(t: seq<T>, key: T -> K, rest: seq<T>)
    requires t != [] && UniqueBy(t[1..], key)
    requires forall x | x in t[1..] :: x in rest
    requires forall i | 0 <= i < |rest| :: key(rest[i]) != key(t[0])
    ensures UniqueBy(t, key)
  {
    forall i, j | 0 <= i < j < |t| ensures key(t[i]) != key(t[j]) {
      assert t[j] == t[1..][j - 1];
      if i > 0 {
        assert t[i] == t[1..][i - 1];
      } else {
        assert t[j] in rest;
      }
    }
  }

  lemma {:induction false} SameMembers<T>(s: seq<T>, t: seq<T>)
    requires multiset(s) == multiset(t)
    ensures |s| == |t| && forall x :: x in s <==> x in t
  {
    assert forall x :: x in s <==> x in multiset(s);
    assert forall x :: x in t <==> x in multiset(t);
    assert |multiset(s)| == |s| && |multiset(t)| == |t|;
  }

  lemma {:induction false} RemoveAt<T>(s: seq<T>, i: nat)
    requires i < |s|
    ensures multiset(s[..i] + s[i + 1..]) == multiset(s) - multiset{s[i]}
    ensures multiset{s[i]} + multiset(s[..i] + s[i + 1..]) == multiset(s)
  {
    assert s == s[..i] + [s[i]] + s[i + 1..];
  }

  lemma {:induction false} UniqueRearranged<T, K>(s: seq<T>, t: seq<T>, key: T -> K)
    requires UniqueBy(s, key) && multiset(s) == multiset(t)
    ensures UniqueBy(t, key)
  {
    hide UniqueBy;
    if t == [] {
      UniqueByTrivially(t, key);
    } else {
      assert t[0] in multiset(s);
      var k :| 0 <= k < |s| && s[k] == t[0];
      var rest := s[..k] + s[k + 1..];
      RemoveAt(s, k);
      OthersDiffer(s, k, key);
      TailWithoutHead(t);
      UniqueRearranged(rest, t[1..], key);
      SameMembers(rest, t[1..]);
      HeadIsUnique(t, key, rest);
    }
  }

  lemma {:induction false} TableCarries<T, K>(s: seq<T>, t: seq<T>, key: T -> K)
    requires UniqueBy(s, key) && UniqueBy(t, key) && forall x | x in s :: x in t
    ensures forall k | k in TableBy(s, key) :: k in TableBy(t, key) && TableBy(s, key)[k] == TableBy(t, key)[k]
  {
    hide TableBy;
    TableLooksUp(s, key);
    TableLooksUp(t, key);
    forall k | k in TableBy(s, key) ensures k in TableBy(t, key) && TableBy(s, key)[k] == TableBy(t, key)[k] {
      TableKey(s, key, k);
      var i :| 0 <= i < |s| && key(s[i]) == k;
      assert s[i] in s && s[i] in t;
    }
  }

  /** Rearranging items with unique keys leaves the dictionary the same. */
  lemma {:induction false} TableRearranged<T, K>(s: seq<T>, t: seq<T>, key: T -> K)
    requires UniqueBy(s, key) && multiset(s) == multiset(t)
    ensures TableBy(s, key) == TableBy(t, key)
  {
    hide TableBy;
    UniqueRearranged(s, t, key);
    SameMembers(s, t);
    TableCarries(s, t, key);
    TableCarries(t, s, key);
  }

  lemma {:induction false} SameItem<T, K>(s: seq<T>, x: T, y: T, key: T -> K)
    requires UniqueBy(s, key) && x in s && y in s && key(x) == key(y)
    ensures x == y
  {
    var i :| 0 <= i < |s| && s[i] == x;
    var j :| 0 <= j < |s| && s[j] == y;
  }

  // ---------------------------------------------------------------- itertools.permutations

  function PrependAll<T>(x: T, lists: seq<seq<T>>): (r: seq<seq<T>>)
    ensures |r| == |lists| && forall k | 0 <= k < |r| :: r[k] == [x] + lists[k]
  {
    seq(|lists|, k requires 0 <= k < |lists| => [x] + lists[k])
  }

  function PermutationsFrom<T>(s: seq<T>, i: nat): seq<seq<T>>
    requires i <= |s|
    decreases |s|, |s| - i
  {
    if i == |s| then []
    else PrependAll(s[i], Permutations(s[..i] + s[i + 1..])) + PermutationsFrom(s, i + 1)
  }

  /** Every ordering of the positions of `s`, in lexicographic order of positions. */
  function Permutations<T>(s: seq<T>): seq<seq<T>>
    decreases |s|, |s| + 1
  {
    if s == [] then [[]] else PermutationsFrom(s, 0)
  }

  lemma {:induction false} Prepended<T>(x: T, lists: seq<seq<T>>, p: seq<T>)
    ensures p in PrependAll(x, lists) <==> p != [] && p[0] == x && p[1..] in lists
  {
    if p != [] && p[0] == x && p[1..] in lists {
      var k :| 0 <= k < |lists| && lists[k] == p[1..];
      assert p == [x] + p[1..] && PrependAll(x, lists)[k] == p;
    }
  }

  lemma {:induction false} PermutationsStartingFrom<T>(s: seq<T>, i: nat, p: seq<T>)
    requires i <= |s| && s != []
    ensures p in PermutationsFrom(s, i) ==> multiset(p) == multiset(s)
    ensures p != [] && multiset(p) == multiset(s) && p[0] in s[i..] ==> p in PermutationsFrom(s, i)
    decreases |s|, |s| - i
  {
    if i < |s| {
      var rest := s[..i] + s[i + 1..];
      var here := PrependAll(s[i], Permutations(rest));
      RemoveAt(s, i);
      PermutationsStartingFrom(s, i + 1, p);
      Prepended(s[i], Permutations(rest), p);
      if p != [] && p[0] == s[i] {
        PermutationsAreRearrangements(rest, p[1..]);
        TailWithoutHead(p);
        assert multiset(p) == multiset{p[0]} + multiset(p[1..]) by {
          assert p == [p[0]] + p[1..];
        }
      }
    }
  }

  /** `Permutations` lists exactly the rearrangements of `s`. */
  lemma {:induction false} PermutationsAreRearrangements<T>(s: seq<T>, p: seq<T>)
    ensures p in Permutations(s) <==> multiset(p) == multiset(s)
    decreases |s|, |s| + 1
  {
    if s == [] {
      assert multiset(p) == multiset(s) ==> p == [] by {
        if p != [] {
          assert p[0] in multiset(p);
        }
      }
    } else {
      PermutationsStartingFrom(s, 0, p);
      if multiset(p) == multiset(s) {
        assert p != [] by {
          assert s[0] in multiset(p);
        }
        assert p[0] in multiset(s);
      }
    }
  }
}
