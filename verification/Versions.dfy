/** Lists of model versions: sorting and the sorted-range algorithms of the standard library. */
module Versions {

  /** model_version_t; versions read from a directory are positive, 0 stands for none. */
  type Version = nat

  ghost predicate Sorted(s: seq<Version>) {
    forall i, j :: 0 <= i < j < |s| ==> s[i] <= s[j]
  }

  ghost predicate Ascending(s: seq<Version>) {
    forall i, j :: 0 <= i < j < |s| ==> s[i] < s[j]
  }

  ghost predicate NoDuplicates(s: seq<Version>) {
    forall i, j :: 0 <= i < j < |s| ==> s[i] != s[j]
  }

  function Elems(s: seq<Version>): set<Version> {
    set v | v in s
  }

  lemma EmptyExactly(s: seq<Version>)
    ensures s == [] <==> forall v: Version :: v !in s
  {
    if s != [] {
      assert s[0] in s;
    }
  }

  // ---- Ascending lists of sets ----

  ghost function Minimum(versions: set<Version>): (m: Version)
    requires versions != {}
    ensures m in versions && forall v: Version :: v in versions ==> m <= v
    decreases versions
  {
    var u: Version :| u in versions;
    if versions == {u} then u
    else
      var l := Minimum(versions - {u});
      assert forall v: Version :: v in versions ==> v == u || v in versions - {u};
      if l < u then l else u
  }

  ghost function Maximum(versions: set<Version>): (m: Version)
    requires versions != {}
    ensures m in versions && forall v: Version :: v in versions ==> v <= m
    decreases versions
  {
    var u: Version :| u in versions;
    if versions == {u} then u
    else
      var l := Maximum(versions - {u});
      assert forall v: Version :: v in versions ==> v == u || v in versions - {u};
      if u < l then l else u
  }

  /** The versions in ascending order. */
  ghost function InOrder(versions: set<Version>): seq<Version> {
    if versions == {} then [] else [Minimum(versions)] + InOrder(versions - {Minimum(versions)})
  }

  lemma {:induction false} InOrderExactly(versions: set<Version>)
    ensures Ascending(InOrder(versions))
    ensures forall v: Version :: v in InOrder(versions) <==> v in versions
  {
    if versions != {} {
      var m := Minimum(versions);
      InOrderExactly(versions - {m});
      ConsAscends(m, InOrder(versions - {m}));
    }
  }

  lemma IsInOrder(s: seq<Version>, versions: set<Version>)
    requires Ascending(s) && forall v: Version :: v in s <==> v in versions
    ensures s == InOrder(versions)
  {
    InOrderExactly(versions);
    AscendingUnique(s, InOrder(versions));
  }

  /** An ascending list is determined by what it holds. */
  lemma {:induction false} AscendingUnique(a: seq<Version>, b: seq<Version>)
    requires Ascending(a) && Ascending(b) && forall v: Version :: v in a <==> v in b
    ensures a == b
  {
    assert a != [] ==> a[0] in b;
    assert b != [] ==> b[0] in a;
    if a != [] {
      TailAbove(a);
      TailAbove(b);
      AscendingUnique(a[1..], b[1..]);
      assert a == [a[0]] + a[1..] && b == [b[0]] + b[1..];
    }
  }

  // ---- std::sort ----

  function Insert(v: Version, s: seq<Version>): (r: seq<Version>)
    ensures multiset(r) == multiset(s) + multiset{v} && |r| == |s| + 1
  {
    if s == [] then [v]
    else if v <= s[0] then [v] + s
    else
      assert s == [s[0]] + s[1..];
      [s[0]] + Insert(v, s[1..])
  }

  function Sort(s: seq<Version>): (r: seq<Version>)
    ensures multiset(r) == multiset(s) && |r| == |s|
  {
    if s == [] then []
    else
      assert s == [s[0]] + s[1..];
      Insert(s[0], Sort(s[1..]))
  }

  lemma SameElems(r: seq<Version>, s: seq<Version>)
    requires multiset(r) == multiset(s)
    ensures Elems(r) == Elems(s)
  {
    forall v ensures v in r <==> v in s {
      assert v in multiset(r) <==> v in multiset(s);
    }
  }

  lemma {:induction false} InsertKeepsSorted(v: Version, s: seq<Version>)
    requires Sorted(s)
    ensures Sorted(Insert(v, s))
  {
    if s != [] && v > s[0] {
      InsertKeepsSorted(v, s[1..]);
      var r := Insert(v, s[1..]);
      forall j | 0 <= j < |r| ensures s[0] <= r[j] {
        assert r[j] in multiset(r);
        assert r[j] == v || r[j] in s[1..];
      }
    }
  }

  lemma {:induction false} SortSorts(s: seq<Version>)
    ensures Sorted(Sort(s)) && Elems(Sort(s)) == Elems(s)
  {
    SameElems(Sort(s), s);
    if s != [] {
      SortSorts(s[1..]);
      InsertKeepsSorted(s[0], Sort(s[1..]));
    }
  }

  lemma UniqueMeansOnce(s: seq<Version>)
    ensures NoDuplicates(s) <==> forall v :: multiset(s)[v] <= 1
  {
    if NoDuplicates(s) {
      forall v ensures multiset(s)[v] <= 1 {
        CountUnique(s, v);
      }
    } else {
      var i, j :| 0 <= i < j < |s| && s[i] == s[j];
      assert s == s[..j] + [s[j]] + s[j + 1..];
      assert s[i] in s[..j];
      assert multiset(s)[s[i]] >= 2;
    }
  }

  lemma {:induction false} CountUnique(s: seq<Version>, v: Version)
    requires NoDuplicates(s)
    ensures multiset(s)[v] <= 1
  {
    if s != [] {
      CountUnique(s[1..], v);
      assert s == [s[0]] + s[1..];
      if s[0] == v {
        assert v !in s[1..];
      }
    }
  }

  lemma SortAscends(s: seq<Version>)
    requires NoDuplicates(s)
    ensures Ascending(Sort(s)) && Elems(Sort(s)) == Elems(s)
  {
    SortSorts(s);
    UniqueMeansOnce(s);
    UniqueMeansOnce(Sort(s));
  }

  // ---- std::set_intersection, std::set_difference ----

  function SetIntersection(a: seq<Version>, b: seq<Version>): seq<Version>
    decreases |a| + |b|
  {
    if a == [] || b == [] then []
    else if a[0] < b[0] then SetIntersection(a[1..], b)
    else if b[0] < a[0] then SetIntersection(a, b[1..])
    else [a[0]] + SetIntersection(a[1..], b[1..])
  }

  function SetDifference(a: seq<Version>, b: seq<Version>): seq<Version>
    decreases |a| + |b|
  {
    if a == [] then []
    else if b == [] then a
    else if a[0] < b[0] then [a[0]] + SetDifference(a[1..], b)
    else if b[0] < a[0] then SetDifference(a, b[1..])
    else SetDifference(a[1..], b[1..])
  }

  /** What is left of an ascending list after its head. */
  lemma TailAbove(a: seq<Version>)
    requires Ascending(a) && a != []
    ensures Ascending(a[1..])
    ensures forall v :: v in a <==> v == a[0] || v in a[1..]
    ensures forall v :: v in a[1..] ==> a[0] < v
  {
    assert a == [a[0]] + a[1..];
  }

  lemma TailFrom(a: seq<Version>)
    requires Sorted(a) && a != []
    ensures Sorted(a[1..])
    ensures forall v :: v in a <==> v == a[0] || v in a[1..]
    ensures forall v :: v in a[1..] ==> a[0] <= v
  {
    assert a == [a[0]] + a[1..];
  }

  lemma ConsAscends(v: Version, s: seq<Version>)
    requires Ascending(s) && forall u :: u in s ==> v < u
    ensures Ascending([v] + s)
  {
    var r := [v] + s;
    forall i, j | 0 <= i < j < |r| ensures r[i] < r[j] {
      assert r[j] == s[j - 1] && s[j - 1] in s;
    }
  }

  /** Of an ascending and a sorted list, the common elements in ascending order. */
  lemma {:induction false} IntersectionExact(a: seq<Version>, b: seq<Version>)
    requires Ascending(a) && Sorted(b)
    ensures Ascending(SetIntersection(a, b))
    ensures forall v :: v in SetIntersection(a, b) <==> v in a && v in b
    decreases |a| + |b|
  {
    if a != [] && b != [] {
      TailAbove(a);
      TailFrom(b);
      if a[0] < b[0] {
        IntersectionExact(a[1..], b);
      } else if b[0] < a[0] {
        IntersectionExact(a, b[1..]);
      } else {
        IntersectionExact(a[1..], b[1..]);
        ConsAscends(a[0], SetIntersection(a[1..], b[1..]));
      }
    }
  }

  /** Of two ascending lists, the elements of the first alone in ascending order. */
  lemma {:induction false} DifferenceExact(a: seq<Version>, b: seq<Version>)
    requires Ascending(a) && Ascending(b)
    ensures Ascending(SetDifference(a, b))
    ensures forall v :: v in SetDifference(a, b) <==> v in a && v !in b
    decreases |a| + |b|
  {
    if a != [] && b != [] {
      TailAbove(a);
      TailAbove(b);
      if a[0] < b[0] {
        DifferenceExact(a[1..], b);
        ConsAscends(a[0], SetDifference(a[1..], b));
      } else if b[0] < a[0] {
        DifferenceExact(a, b[1..]);
      } else {
        DifferenceExact(a[1..], b[1..]);
      }
    }
  }

  // ---- erase(remove(...)), erase(remove_if(...)), copy_if ----

  function Keep(s: seq<Version>, keep: Version -> bool): (r: seq<Version>)
    ensures |r| <= |s|
  {
    if s == [] then [] else (if keep(s[0]) then [s[0]] else []) + Keep(s[1..], keep)
  }

  lemma {:induction false} KeepExact(s: seq<Version>, keep: Version -> bool)
    ensures forall v :: v in Keep(s, keep) <==> v in s && keep(v)
  {
    if s != [] {
      assert s == [s[0]] + s[1..];
      KeepExact(s[1..], keep);
    }
  }

  lemma {:induction false} KeepAscends(s: seq<Version>, keep: Version -> bool)
    requires Ascending(s)
    ensures Ascending(Keep(s, keep))
  {
    if s != [] {
      TailAbove(s);
      KeepAscends(s[1..], keep);
      KeepExact(s[1..], keep);
      if keep(s[0]) {
        ConsAscends(s[0], Keep(s[1..], keep));
      }
    }
  }

  lemma {:induction false} KeepUnique(s: seq<Version>, keep: Version -> bool)
    requires NoDuplicates(s)
    ensures NoDuplicates(Keep(s, keep))
  {
    if s != [] {
      KeepUnique(s[1..], keep);
      KeepExact(s[1..], keep);
      assert s[0] !in s[1..];
    }
  }

  lemma {:induction false} KeepConcat(a: seq<Version>, b: seq<Version>, keep: Version -> bool)
    ensures Keep(a + b, keep) == Keep(a, keep) + Keep(b, keep)
  {
    if a == [] {
      assert a + b == b;
    } else {
      assert (a + b)[1..] == a[1..] + b;
      KeepConcat(a[1..], b, keep);
      var head := if keep(a[0]) then [a[0]] else [];
      assert head + Keep(a[1..], keep) + Keep(b, keep) == head + (Keep(a[1..], keep) + Keep(b, keep));
    }
  }

  lemma {:induction false} KeepSame(s: seq<Version>, p: Version -> bool, q: Version -> bool)
    requires forall v: Version :: v in s ==> p(v) == q(v)
    ensures Keep(s, p) == Keep(s, q)
  {
    if s != [] {
      KeepSame(s[1..], p, q);
    }
  }

  lemma {:induction false} KeepAll(s: seq<Version>, keep: Version -> bool)
    requires forall v: Version :: v in s ==> keep(v)
    ensures Keep(s, keep) == s
  {
    if s != [] {
      KeepAll(s[1..], keep);
    }
  }

  function Other(v: Version): Version -> bool {
    (u: Version) => u != v
  }

  function In(versions: set<Version>): Version -> bool {
    (v: Version) => v in versions
  }

  function NotIn(versions: set<Version>): Version -> bool {
    (v: Version) => v !in versions
  }

  /** The keys of std::map in iteration order. */
  method KeysInOrder(keys: set<Version>) returns (s: seq<Version>)
    ensures Ascending(s) && Elems(s) == keys
  {
    s := [];
    var rest := keys;
    while rest != {}
      invariant rest <= keys
      invariant NoDuplicates(s)
      invariant forall v :: v in s <==> v in keys && v !in rest
      decreases rest
    {
      var v: Version :| v in rest;
      rest := rest - {v};
      s := s + [v];
    }
    SortAscends(s);
    s := Sort(s);
  }
}
