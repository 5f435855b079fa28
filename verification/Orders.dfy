/** Ordered listings: what `ORDER BY` over a column with distinct values produces. */
module Orders {

  ghost predicate TotalOrder<V(!new)>(leq: (V, V) -> bool) {
    && (forall a :: leq(a, a))
    && (forall a, b :: leq(a, b) && leq(b, a) ==> a == b)
    && (forall a, b, c :: leq(a, b) && leq(b, c) ==> leq(a, c))
    && (forall a, b :: leq(a, b) || leq(b, a))
  }

  ghost predicate Injective<K, V>(m: map<K, V>) {
    forall a, b :: a in m && b in m && m[a] == m[b] ==> a == b
  }

  ghost predicate Distinct<K>(s: seq<K>) {
    forall i, j :: 0 <= i < j < |s| ==> s[i] != s[j]
  }

  /** `s` lists exactly the keys of `m`, once each, by ascending value. */
  ghost predicate Lists<K(!new), V>(s: seq<K>, m: map<K, V>, leq: (V, V) -> bool) {
    && Distinct(s)
    && (forall k :: k in s <==> k in m)
    && (forall i, j :: 0 <= i < j < |s| ==> leq(m[s[i]], m[s[j]]))
  }

  predicate IsLeast<K(==), V>(k: K, m: map<K, V>, leq: (V, V) -> bool) {
    k in m && forall q | q in m :: leq(m[k], m[q])
  }

  lemma {:induction false} LeastExists<K(!new), V(!new)>(m: map<K, V>, leq: (V, V) -> bool)
    requires TotalOrder(leq) && m != map[]
    ensures exists k :: IsLeast(k, m, leq)
    decreases |m|
  {
    var k :| k in m;
    var rest := m - {k};
    if rest == map[] {
      assert forall q | q in m :: q == k || q in rest;
      assert IsLeast(k, m, leq);
    } else {
      LeastExists(rest, leq);
      var r :| IsLeast(r, rest, leq);
      assert forall q | q in m :: q == k || q in rest;
      assert if leq(m[k], m[r]) then IsLeast(k, m, leq) else IsLeast(r, m, leq);
    }
  }

  lemma LeastIsUnique<K(!new), V(!new)>(m: map<K, V>, leq: (V, V) -> bool)
    requires TotalOrder(leq) && Injective(m)
    ensures forall a, b :: IsLeast(a, m, leq) && IsLeast(b, m, leq) ==> a == b
  {
    forall a, b | IsLeast(a, m, leq) && IsLeast(b, m, leq) ensures a == b {
      assert leq(m[a], m[b]) && leq(m[b], m[a]);
    }
  }

  lemma LeastThenRest<K(!new), V(!new)>(k: K, r: seq<K>, m: map<K, V>, leq: (V, V) -> bool)
    requires IsLeast(k, m, leq) && Lists(r, m - {k}, leq)
    ensures Lists([k] + r, m, leq)
  {
    var s := [k] + r;
    forall q ensures q in s <==> q in m {
      if q in m && q != k { assert q in m - {k}; }
      if q in r { assert q in m - {k}; }
    }
    forall i, j | 0 <= i < j < |s| ensures s[i] != s[j] && leq(m[s[i]], m[s[j]]) {
      assert s[j] == r[j - 1] && r[j - 1] in r && s[j] in m - {k};
      if i > 0 { assert s[i] == r[i - 1] && r[i - 1] in r && s[i] in m - {k}; }
    }
  }

  /** The keys of `m` by ascending value. */
  function Enumerate<K(==,!new), V(!new)>(m: map<K, V>, leq: (V, V) -> bool): (s: seq<K>)
    requires TotalOrder(leq) && Injective(m)
    ensures Distinct(s) && (forall k :: k in s <==> k in m) && |s| == |m|
    decreases |m|
  {
    if m == map[] then []
    else
      LeastExists(m, leq);
      LeastIsUnique(m, leq);
      var k :| IsLeast(k, m, leq);
      var rest := Enumerate(m - {k}, leq);
      OneMore(k, rest, m);
      [k] + rest
  }

  lemma OneMore<K(!new), V>(k: K, r: seq<K>, m: map<K, V>)
    requires k in m && Distinct(r) && forall q :: q in r <==> q in m - {k}
    ensures Distinct([k] + r) && forall q :: q in [k] + r <==> q in m
  {
    var s := [k] + r;
    forall q ensures q in s <==> q in m { assert q in m - {k} <==> q in m && q != k; }
    forall j | 1 <= j < |s| ensures s[j] != k { assert s[j] == r[j - 1] && r[j - 1] in r; }
  }

  lemma {:induction false} EnumerateLists<K(!new), V(!new)>(m: map<K, V>, leq: (V, V) -> bool)
    requires TotalOrder(leq) && Injective(m)
    ensures Lists(Enumerate(m, leq), m, leq)
    decreases |m|
  {
    if m != map[] {
      LeastExists(m, leq);
      LeastIsUnique(m, leq);
      var k :| IsLeast(k, m, leq);
      EnumerateLists(m - {k}, leq);
      LeastThenRest(k, Enumerate(m - {k}, leq), m, leq);
    }
  }

  lemma HeadIsLeast<K(!new), V(!new)>(s: seq<K>, m: map<K, V>, leq: (V, V) -> bool)
    requires TotalOrder(leq) && Lists(s, m, leq) && s != []
    ensures IsLeast(s[0], m, leq)
  {
    assert s[0] in s;
    forall q | q in m ensures leq(m[s[0]], m[q]) {
      assert q in s;
      var i :| 0 <= i < |s| && s[i] == q;
    }
  }

  lemma SameHead<K(!new), V(!new)>(s: seq<K>, r: seq<K>, m: map<K, V>, leq: (V, V) -> bool)
    requires TotalOrder(leq) && Injective(m)
    requires Lists(s, m, leq) && Lists(r, m, leq)
    ensures |s| > 0 <==> |r| > 0
    ensures |s| > 0 ==> s[0] == r[0]
  {
    if s != [] { assert s[0] in s && s[0] in r; }
    if r != [] { assert r[0] in r && r[0] in s; }
    if s != [] && r != [] {
      HeadIsLeast(s, m, leq);
      HeadIsLeast(r, m, leq);
      LeastIsUnique(m, leq);
    }
  }

  /** There is only one listing, so any sequence that lists `m` is the one `Enumerate` gives. */
  lemma {:induction false} ListingIsUnique<K(!new), V(!new)>(s: seq<K>, r: seq<K>, m: map<K, V>, leq: (V, V) -> bool)
    requires TotalOrder(leq) && Injective(m)
    requires Lists(s, m, leq) && Lists(r, m, leq)
    ensures s == r
    decreases |s|
  {
    SameHead(s, r, m, leq);
    if s != [] {
      TailLists(s, m, leq);
      TailLists(r, m, leq);
      ListingIsUnique(s[1..], r[1..], m - {s[0]}, leq);
      assert s == [s[0]] + s[1..] && r == [r[0]] + r[1..];
    }
  }

  lemma TailLists<K(!new), V(!new)>(s: seq<K>, m: map<K, V>, leq: (V, V) -> bool)
    requires Lists(s, m, leq) && s != []
    ensures Lists(s[1..], m - {s[0]}, leq) && s[0] in m
  {
    var t, n := s[1..], m - {s[0]};
    assert s[0] in s;
    forall k ensures k in t <==> k in n {
      if k in n { assert k in s; var i :| 0 <= i < |s| && s[i] == k; assert t[i - 1] == k; }
      if k in t { var i :| 0 <= i < |t| && t[i] == k; assert s[i + 1] == k && k in s; }
    }
    forall i, j | 0 <= i < j < |t| ensures t[i] != t[j] && leq(n[t[i]], n[t[j]]) {
      assert t[i] == s[i + 1] && t[j] == s[j + 1] && t[i] in t && t[j] in t;
    }
  }

  predicate IntLeq(a: int, b: int) { a <= b }

  function Range<K(!new)>(s: seq<K>): (r: set<K>)
    ensures forall k :: k in r <==> k in s
  {
    set k | k in s
  }

  lemma SubsetCount<T>(a: set<T>, b: set<T>)
    requires a <= b
    ensures |a| <= |b|
  {
    assert b == a + (b - a);
  }

  lemma {:induction false} DistinctCount<K(!new)>(s: seq<K>)
    requires Distinct(s)
    ensures |Range(s)| == |s|
  {
    if s != [] {
      var last := |s| - 1;
      DistinctCount(s[..last]);
      assert Range(s) == Range(s[..last]) + {s[last]};
    }
  }

  lemma {:induction false} DistinctMeansOnce<K>(s: seq<K>, k: K)
    requires Distinct(s)
    ensures multiset(s)[k] <= 1
  {
    if s != [] {
      var last := |s| - 1;
      DistinctMeansOnce(s[..last], k);
      assert s == s[..last] + [s[last]];
      if s[last] == k { assert k !in multiset(s[..last]); }
    }
  }

  lemma RepeatCountsTwice<K>(s: seq<K>, i: nat, j: nat)
    requires i < j < |s| && s[i] == s[j]
    ensures multiset(s)[s[i]] >= 2
  {
    assert s == s[..j] + s[j..];
    assert s[..j][i] in multiset(s[..j]) && s[j..][0] in multiset(s[j..]);
  }

  lemma PermutationStaysDistinct<K>(s: seq<K>, r: seq<K>)
    requires Distinct(s) && multiset(s) == multiset(r)
    ensures Distinct(r)
  {
    forall i, j | 0 <= i < j < |r| ensures r[i] != r[j] {
      if r[i] == r[j] {
        RepeatCountsTwice(r, i, j);
        DistinctMeansOnce(s, r[i]);
      }
    }
  }
}
