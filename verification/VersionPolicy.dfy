/** Which of the available versions are served. */
module VersionPolicy {
  import opened Versions

  datatype Policy = All | Specific(specificVersions: seq<Version>) | Latest(numVersions: nat) {
    /** The constructor of the specific policy sorts its list. */
    ghost predicate Constructed() {
      Specific? ==> Sorted(specificVersions)
    }
  }

  method MakeSpecific(versions: seq<Version>) returns (p: Policy)
    ensures p.Constructed() && p.Specific? && Elems(p.specificVersions) == Elems(versions)
  {
    SortSorts(versions);
    p := Specific(Sort(versions));
  }

  ghost function Greater(versions: set<Version>, v: Version): set<Version> {
    set u | u in versions && u > v
  }

  /** The versions a policy selects: all, those listed, or those with fewer than k greater ones. */
  ghost function Selected(p: Policy, versions: set<Version>): set<Version> {
    match p
    case All => versions
    case Specific(listed) => set v | v in versions && v in listed
    case Latest(k) => set v | v in versions && |Greater(versions, v)| < k
  }

  /** What is selected, policy by policy. */
  lemma SelectedExactly(p: Policy, versions: seq<Version>)
    ensures p.All? ==> Selected(p, Elems(versions)) == Elems(versions)
    ensures p.Specific? ==>
              forall v: Version :: v in Selected(p, Elems(versions)) <==> v in versions && v in p.specificVersions
    ensures p.Latest? ==> forall v: Version ::
              v in Selected(p, Elems(versions)) <==>
              v in versions && |set u | u in versions && u > v| < p.numVersions
  {
    forall v: Version ensures Greater(Elems(versions), v) == set u | u in versions && u > v {
    }
  }

  function Reversed(s: seq<Version>): seq<Version> {
    seq(|s|, i requires 0 <= i < |s| => s[|s| - 1 - i])
  }

  /** For lists without duplicates the filters return exactly the selected versions. */
  method Filter(p: Policy, versions: seq<Version>) returns (result: seq<Version>)
    requires p.Constructed() && NoDuplicates(versions)
    ensures NoDuplicates(result) && Elems(result) == Selected(p, Elems(versions))
    ensures p.All? ==> forall v: Version :: v in result <==> v in versions
    ensures p.Specific? ==> forall v: Version :: v in result <==> v in versions && v in p.specificVersions
    ensures p.Latest? ==> forall v: Version ::
              v in result <==> v in versions && |set u | u in versions && u > v| < p.numVersions
  {
    SelectedExactly(p, versions);
    assert forall v: Version :: v in Elems(versions) <==> v in versions;
    match p
    case All => result := versions;
    case Specific(listed) =>
      SortAscends(versions);
      result := SetIntersection(Sort(versions), listed);
      IntersectionExact(Sort(versions), listed);
      assert forall v :: v in Sort(versions) <==> v in Elems(versions);
      assert forall v :: v in result <==> v in Selected(p, Elems(versions));
    case Latest(k) => result := FilterLatest(k, versions);
  }

  method FilterLatest(numVersions: nat, versions: seq<Version>) returns (result: seq<Version>)
    requires NoDuplicates(versions)
    ensures NoDuplicates(result) && Elems(result) == Selected(Latest(numVersions), Elems(versions))
  {
    SortAscends(versions);
    var descending := Reversed(Sort(versions));
    result := [];
    for i := 0 to |descending|
      invariant result == descending[..if i < numVersions then i else numVersions]
    {
      if i >= numVersions {
        break;
      }
      result := result + [descending[i]];
    }
    LatestExact(numVersions, Sort(versions), result);
  }

  /** In an ascending list the version at j has exactly |s| - 1 - j greater ones. */
  lemma {:induction false} CountGreater(s: seq<Version>, j: nat)
    requires Ascending(s) && j < |s|
    ensures |Greater(Elems(s), s[j])| == |s| - 1 - j
    decreases |s| - j
  {
    if j == |s| - 1 {
      assert Greater(Elems(s), s[j]) == {};
    } else {
      CountGreater(s, j + 1);
      assert Greater(Elems(s), s[j]) == Greater(Elems(s), s[j + 1]) + {s[j + 1]} by {
        forall v | v in Greater(Elems(s), s[j]) ensures v in Greater(Elems(s), s[j + 1]) || v == s[j + 1] {
          var i :| 0 <= i < |s| && s[i] == v;
          assert i > j;
        }
      }
      assert s[j + 1] !in Greater(Elems(s), s[j + 1]);
    }
  }

  lemma LatestExact(k: nat, s: seq<Version>, result: seq<Version>)
    requires Ascending(s)
    requires result == Reversed(s)[..if |s| < k then |s| else k]
    ensures NoDuplicates(result) && Elems(result) == Selected(Latest(k), Elems(s))
  {
    forall i | 0 <= i < |result| ensures result[i] in Selected(Latest(k), Elems(s)) {
      LatestAt(k, s, |s| - 1 - i);
    }
    forall v: Version | v in Selected(Latest(k), Elems(s)) ensures v in result {
      TakenIfLatest(k, s, result, v);
    }
  }

  lemma TakenIfLatest(k: nat, s: seq<Version>, result: seq<Version>, v: Version)
    requires Ascending(s) && result == Reversed(s)[..if |s| < k then |s| else k]
    requires v in Selected(Latest(k), Elems(s))
    ensures v in result
  {
    var j :| 0 <= j < |s| && s[j] == v;
    LatestAt(k, s, j);
    assert result[|s| - 1 - j] == v;
  }

  /** The version at j of an ascending list is selected exactly if it is among the last k. */
  lemma LatestAt(k: nat, s: seq<Version>, j: nat)
    requires Ascending(s) && j < |s|
    ensures s[j] in Selected(Latest(k), Elems(s)) <==> |s| - 1 - j < k
  {
    CountGreater(s, j);
  }

  /** latest(k) selects k versions, or all if there are fewer, and no other version is greater than one of them. */
  lemma {:induction false} LatestAreGreatest(k: nat, versions: set<Version>)
    ensures
      var top := Selected(Latest(k), versions);
      && top <= versions
      && |top| == (if |versions| < k then |versions| else k)
      && (forall u, v :: u in top && v in versions - top ==> v < u)
  {
    var top := Selected(Latest(k), versions);
    forall u, v | u in top && v in versions - top ensures v < u {
      if u <= v {
        assert Greater(versions, v) <= Greater(versions, u);
        SubsetSize(Greater(versions, v), Greater(versions, u));
      }
    }
    CountTop(k, versions);
  }

  lemma SubsetSize(a: set<Version>, b: set<Version>)
    requires a <= b
    ensures |a| <= |b|
  {
    assert b == a + (b - a);
  }

  /** Counted by taking the least version away. */
  lemma {:induction false} CountTop(k: nat, versions: set<Version>)
    ensures |Selected(Latest(k), versions)| == if |versions| < k then |versions| else k
    decreases versions
  {
    if versions == {} {
      assert Selected(Latest(k), versions) == {};
    } else {
      var m := Minimum(versions);
      CountTop(k, versions - {m});
      LeastSelected(k, versions, m);
    }
  }

  /** The least version is selected last, and without it the others are selected as before. */
  lemma LeastSelected(k: nat, versions: set<Version>, m: Version)
    requires m in versions && forall v: Version :: v in versions ==> m <= v
    ensures Selected(Latest(k), versions) ==
            Selected(Latest(k), versions - {m}) + if |versions| <= k then {m} else {}
  {
    var rest := versions - {m};
    assert Greater(versions, m) == rest;
    forall v: Version | v in rest ensures Greater(versions, v) == Greater(rest, v) {
    }
  }

  /** Removing other versions keeps a version selected. */
  lemma SelectedKept(p: Policy, versions: set<Version>, fewer: set<Version>, v: Version)
    requires fewer <= versions && v in fewer && v in Selected(p, versions)
    ensures v in Selected(p, fewer)
  {
    if p.Latest? {
      assert Greater(fewer, v) <= Greater(versions, v);
      SubsetSize(Greater(fewer, v), Greater(versions, v));
    }
  }

  /** If everything selected is in a subset, the same is selected of the subset. */
  lemma SelectedWithin(p: Policy, versions: set<Version>, fewer: set<Version>)
    requires fewer <= versions && Selected(p, versions) <= fewer
    ensures Selected(p, fewer) == Selected(p, versions)
  {
    forall v: Version | v in Selected(p, versions) ensures v in Selected(p, fewer) {
      SelectedKept(p, versions, fewer, v);
    }
    forall v: Version | v in Selected(p, fewer) ensures v in Selected(p, versions) {
      if p.Latest? && v !in Selected(p, versions) {
        var top := Selected(p, versions);
        LatestAreGreatest(p.numVersions, versions);
        SubsetSize(Greater(versions, v), versions);
        assert v in versions - top;
        assert forall u: Version :: u in top ==> u in Greater(fewer, v);
        SubsetSize(top, Greater(fewer, v));
        assert false;
      }
    }
  }
}
