/** std::binary_search on lists of versions in any order, and the erasing of what it finds. */
module VersionSearch {
  import opened Versions

  // ---- std::binary_search ----

  /** Where the halving search for v in s[low..high] ends, whatever the order of s. */
  function LowerBound(s: seq<Version>, v: Version, low: nat, high: nat): (k: nat)
    requires low <= high <= |s|
    ensures low <= k <= high
    decreases high - low
  {
    if low == high then low
    else
      var mid := (low + high) / 2;
      if s[mid] < v then LowerBound(s, v, mid + 1, high) else LowerBound(s, v, low, mid)
  }

  predicate Finds(s: seq<Version>, v: Version) {
    var k := LowerBound(s, v, 0, |s|);
    k < |s| && s[k] == v
  }

  method BinarySearch(s: seq<Version>, v: Version) returns (found: bool)
    ensures found == Finds(s, v)
  {
    var low, high := 0, |s|;
    while low < high
      invariant 0 <= low <= high <= |s|
      invariant LowerBound(s, v, low, high) == LowerBound(s, v, 0, |s|)
    {
      var mid := (low + high) / 2;
      if s[mid] < v {
        low := mid + 1;
      } else {
        high := mid;
      }
    }
    found := low < |s| && !(v < s[low]) && s[low] == v;
  }

  /** In an ascending list the search finds exactly the members. */
  lemma FindsExactly(s: seq<Version>, v: Version)
    requires Ascending(s)
    ensures Finds(s, v) <==> v in s
  {
    LowerBoundSplits(s, v, 0, |s|);
  }

  lemma {:induction false} LowerBoundSplits(s: seq<Version>, v: Version, low: nat, high: nat)
    requires Ascending(s) && low <= high <= |s|
    requires forall i :: 0 <= i < low ==> s[i] < v
    requires forall i :: high <= i < |s| ==> v <= s[i]
    ensures
      var k := LowerBound(s, v, low, high);
      (forall i :: 0 <= i < k ==> s[i] < v) && (forall i :: k <= i < |s| ==> v <= s[i])
    decreases high - low
  {
    if low < high {
      var mid := (low + high) / 2;
      if s[mid] < v {
        LowerBoundSplits(s, v, mid + 1, high);
      } else {
        LowerBoundSplits(s, v, low, mid);
      }
    }
  }

  /**
   * The versions of a list are all found if and only if the list is ascending: if the search finds
   * every one of them, it has split the list into smaller and greater ones.
   */
  lemma AllFoundExactlyAscending(s: seq<Version>)
    requires NoDuplicates(s)
    ensures (forall v: Version :: v in s ==> Finds(s, v)) <==> Ascending(s)
  {
    if Ascending(s) {
      forall v: Version | v in s ensures Finds(s, v) {
        FindsExactly(s, v);
      }
    }
    if forall v: Version :: v in s ==> Finds(s, v) {
      forall i | 0 <= i < |s| ensures FoundWithin(s, i, 0, |s|) {
        assert s[i] in s && Finds(s, s[i]);
      }
      FoundMeansAscending(s, 0, |s|);
    }
  }

  predicate FoundWithin(s: seq<Version>, i: nat, low: nat, high: nat)
    requires i < |s| && low <= high <= |s|
  {
    var k := LowerBound(s, s[i], low, high);
    k < high && s[k] == s[i]
  }

  /** A version that is found on its own side of the middle compares with the middle accordingly. */
  lemma FoundBesideMiddle(s: seq<Version>, i: nat, low: nat, high: nat)
    requires NoDuplicates(s) && low <= i < high <= |s| && FoundWithin(s, i, low, high)
    ensures
      var mid := (low + high) / 2;
      && (i < mid ==> s[i] < s[mid] && FoundWithin(s, i, low, mid))
      && (i > mid ==> s[mid] < s[i] && FoundWithin(s, i, mid + 1, high))
  {}

  lemma {:induction false} FoundMeansAscending(s: seq<Version>, low: nat, high: nat)
    requires NoDuplicates(s) && low <= high <= |s|
    requires forall i :: low <= i < high ==> FoundWithin(s, i, low, high)
    ensures forall i, j :: low <= i < j < high ==> s[i] < s[j]
    decreases high - low
  {
    if low < high {
      var mid := (low + high) / 2;
      forall i | low <= i < mid ensures s[i] < s[mid] && FoundWithin(s, i, low, mid) {
        FoundBesideMiddle(s, i, low, high);
      }
      forall i | mid < i < high ensures s[mid] < s[i] && FoundWithin(s, i, mid + 1, high) {
        FoundBesideMiddle(s, i, low, high);
      }
      FoundMeansAscending(s, low, mid);
      FoundMeansAscending(s, mid + 1, high);
    }
  }

  /** Of two versions in the order of their directory names the first is found only if it is not the greater one. */
  lemma NotFoundInNameOrder(s: seq<Version>)
    requires |s| == 2
    ensures Finds(s, s[0]) <==> s[0] <= s[1]
  {
    assert LowerBound(s, s[0], 0, 2) == if s[1] < s[0] then LowerBound(s, s[0], 2, 2) else LowerBound(s, s[0], 0, 1);
  }

  // ---- Erasing what the search finds ----

  function Erase(s: seq<Version>, v: Version): seq<Version> {
    if Finds(s, v) then Keep(s, Other(v)) else s
  }

  function EraseAll(s: seq<Version>, gone: seq<Version>): seq<Version> {
    if gone == [] then s else Erase(EraseAll(s, gone[..|gone| - 1]), gone[|gone| - 1])
  }

  /** Only versions that are to go are erased; of an ascending list, exactly these. */
  ghost predicate Erased(s: seq<Version>, gone: set<Version>, left: seq<Version>) {
    && NoDuplicates(left)
    && Elems(s) - gone <= Elems(left) <= Elems(s)
    && (Ascending(s) ==> Ascending(left) && Elems(left) == Elems(s) - gone)
  }

  lemma EraseFacts(s: seq<Version>, v: Version)
    requires NoDuplicates(s)
    ensures Erased(s, {v}, Erase(s, v))
  {
    KeepExact(s, Other(v));
    KeepUnique(s, Other(v));
    if Ascending(s) {
      FindsExactly(s, v);
      KeepAscends(s, Other(v));
    }
  }

  lemma {:induction false} EraseAllFacts(s: seq<Version>, gone: seq<Version>)
    requires NoDuplicates(s)
    ensures Erased(s, Elems(gone), EraseAll(s, gone))
  {
    if gone != [] {
      var before, v := gone[..|gone| - 1], gone[|gone| - 1];
      assert gone == before + [v];
      assert Elems(gone) == Elems(before) + {v};
      EraseAllFacts(s, before);
      EraseFacts(EraseAll(s, before), v);
    }
  }

  lemma {:induction false} EraseAllConcat(s: seq<Version>, a: seq<Version>, b: seq<Version>)
    ensures EraseAll(s, a + b) == EraseAll(EraseAll(s, a), b)
  {
    if b == [] {
      assert a + b == a;
    } else {
      assert (a + b)[..|a + b| - 1] == a + b[..|b| - 1];
      EraseAllConcat(s, a, b[..|b| - 1]);
    }
  }

  lemma {:induction false} EraseAllShrinks(s: seq<Version>, gone: seq<Version>)
    ensures Elems(EraseAll(s, gone)) <= Elems(s)
  {
    if gone != [] {
      var before := EraseAll(s, gone[..|gone| - 1]);
      EraseAllShrinks(s, gone[..|gone| - 1]);
      KeepExact(before, Other(gone[|gone| - 1]));
    }
  }
}
