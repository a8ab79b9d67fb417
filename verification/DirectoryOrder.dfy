/** Fallback on a model without versions when the available versions are in the order of their directory names. */
module DirectoryOrder {
  import opened Models = Model
  import opened Reconciliation
  import opened ReconciliationSteps
  import opened VersionPolicy
  import opened VersionSearch
  import opened Versions

  // ---- Any policy ----

  /** What is served: of what is selected when the start loop ends, the versions that load. */
  lemma ServedInAnyOrder(available: seq<Version>, s: Setting, plan: Plan)
    requires NoDuplicates(available) && FollowsSteps(map[], available, s, plan)
    ensures forall v: Version ::
              Up(After(map[], s, plan), v) <==>
              v in FirstSelected(available, s, plan) && s.loads(v) && v !in s.blocked
  {
    RoundsDone(map[], s, available);
    forall v: Version
      ensures Up(After(map[], s, plan), v) <==>
              v in FirstSelected(available, s, plan) && s.loads(v) && v !in s.blocked
    {
      ServedOnNew(available, s, plan, v);
    }
  }

  lemma ServedOnNew(available: seq<Version>, s: Setting, plan: Plan, v: Version)
    requires FollowsSteps(map[], available, s, plan)
    requires LoopDone(map[], s, available, plan.started, LeftAfterStarts(available, s, plan))
    ensures Up(After(map[], s, plan), v) <==>
            v in FirstSelected(available, s, plan) && s.loads(v) && v !in s.blocked
  {
    if v in plan.started && s.loads(v) {
      StaysSelected(available, s, plan, v);
      LoadedServed(s, plan, LastSelected(available, s, plan), v);
    } else {
      OthersNotServed(s, plan, v);
    }
  }

  lemma LoadedServed(s: Setting, plan: Plan, last: set<Version>, v: Version)
    requires SplitExactly(AfterReloads(map[], s, plan), s, last, Failed(s, plan), plan.retired, plan.cleaned)
    requires v in plan.started && s.loads(v) && v in last
    ensures Up(After(map[], s, plan), v) <==> v !in s.blocked
  {
    OnNewModel(s, plan, v);
    assert v in plan.retired <==> v in s.blocked;
    assert v !in plan.cleaned;
  }

  lemma OthersNotServed(s: Setting, plan: Plan, v: Version)
    requires v !in plan.started || !s.loads(v)
    ensures !Up(After(map[], s, plan), v)
  {
    OnNewModel(s, plan, v);
  }

  lemma OnNewModel(s: Setting, plan: Plan, v: Version)
    ensures
      var after := AfterReloads(map[], s, plan);
      (v in after <==> v in plan.started) && (v in after ==> after[v] == Attempted(s.config, v, s.loads(v)))
  {}

  /** A version that loads is never erased, so it stays selected. */
  lemma StaysSelected(available: seq<Version>, s: Setting, plan: Plan, v: Version)
    requires s.loads(v) && v in FirstSelected(available, s, plan)
    requires NoDuplicates(LeftAfterStarts(available, s, plan))
    ensures v in LastSelected(available, s, plan)
  {
    var left := LeftAfterStarts(available, s, plan);
    var again := FailedIn(plan.lastRound, s.loads) + FailedIn(plan.reloaded, s.loads);
    EraseAllFacts(left, again);
    KeepExact(plan.lastRound, Fails(s.loads));
    KeepExact(plan.reloaded, Fails(s.loads));
    assert v in Elems(left) && v !in Elems(again);
    SelectedKept(s.policy, Elems(left), Elems(LeftAtEnd(available, s, plan)), v);
  }

  /**
   * So exactly what the policy selects of the loadable versions is served if and only if all of
   * that is selected when the start loop ends.
   */
  lemma FallsBackExactly(available: seq<Version>, s: Setting, plan: Plan)
    requires NoDuplicates(available) && FollowsSteps(map[], available, s, plan)
    ensures
      var best := Selected(s.policy, Loadable(Elems(available), s)) - s.blocked;
      (forall v: Version :: Up(After(map[], s, plan), v) <==> v in best) <==>
      best <= FirstSelected(available, s, plan)
  {
    ServedInAnyOrder(available, s, plan);
    RoundsDone(map[], s, available);
    var left, loadable := Elems(LeftAfterStarts(available, s, plan)), Loadable(Elems(available), s);
    forall v: Version | v in FirstSelected(available, s, plan) && s.loads(v) ensures v in Selected(s.policy, loadable) {
      SelectedKept(s.policy, left, loadable, v);
    }
  }

  /** The policies all and specific fall back on any list: for them a failed version takes no other one's place. */
  lemma AllAndSpecificFallBack(available: seq<Version>, s: Setting, plan: Plan)
    requires NoDuplicates(available) && FollowsSteps(map[], available, s, plan) && !s.policy.Latest?
    ensures forall v: Version ::
              Up(After(map[], s, plan), v) <==>
              v in Selected(s.policy, Loadable(Elems(available), s)) && v !in s.blocked
  {
    ServedInAnyOrder(available, s, plan);
    RoundsDone(map[], s, available);
    forall v: Version | v in Selected(s.policy, Loadable(Elems(available), s))
      ensures v in FirstSelected(available, s, plan)
    {
      assert v in Elems(available) && s.loads(v);
    }
  }

  // ---- latest(k) ----

  /** If the directory has at most k versions, latest(k) selects them all and falls back on any list. */
  lemma FewFallBack(available: seq<Version>, s: Setting, plan: Plan)
    requires NoDuplicates(available) && FollowsSteps(map[], available, s, plan)
    requires s.policy.Latest? && |Elems(available)| <= s.policy.numVersions
    ensures forall v: Version ::
              Up(After(map[], s, plan), v) <==> v in Loadable(Elems(available), s) && v !in s.blocked
  {
    ServedInAnyOrder(available, s, plan);
    RoundsDone(map[], s, available);
    var left := Elems(LeftAfterStarts(available, s, plan));
    forall v: Version | v in Loadable(Elems(available), s) ensures v in FirstSelected(available, s, plan) {
      FewSelected(s.policy, Elems(available), left, v);
    }
  }

  lemma FewSelected(p: Policy, versions: set<Version>, left: set<Version>, v: Version)
    requires p.Latest? && |versions| <= p.numVersions && left <= versions && v in left
    ensures v in Selected(p, left)
  {
    assert Greater(left, v) + {v} <= versions;
    SubsetSize(Greater(left, v) + {v}, versions);
  }

  ghost function FailingLatest(remaining: seq<Version>, k: nat, loads: Version -> bool): set<Version> {
    set v | v in Selected(Latest(k), Elems(remaining)) && !loads(v)
  }

  /** Every one of the versions is found in its turn. */
  ghost predicate ErasesAll(remaining: seq<Version>, gone: seq<Version>) {
    forall v: Version :: v in gone ==> v !in EraseAll(remaining, gone)
  }

  /**
   * One comes down the list if, again and again, every failing version of the k greatest ones left
   * is found in its turn and erased, until all of them load.
   */
  ghost predicate ComesDown(remaining: seq<Version>, k: nat, loads: Version -> bool)
    decreases Elems(remaining)
  {
    var failing := FailingLatest(remaining, k, loads);
    failing == {} ||
    (ErasesAll(remaining, InOrder(failing)) &&
     (ErasingShrinks(remaining, failing);
      ComesDown(EraseAll(remaining, InOrder(failing)), k, loads)))
  }

  lemma ErasingShrinks(remaining: seq<Version>, failing: set<Version>)
    requires failing != {} && failing <= Elems(remaining) && ErasesAll(remaining, InOrder(failing))
    ensures Elems(EraseAll(remaining, InOrder(failing))) < Elems(remaining)
  {
    EraseAllShrinks(remaining, InOrder(failing));
    InOrderExactly(failing);
    var v: Version :| v in failing;
    assert v in InOrder(failing) && v in Elems(remaining);
  }

  /**
   * latest(k) on a model without versions, with at least k versions that load: the k greatest of
   * them are served if and only if one comes down the list.
   */
  lemma LatestFallsBackExactly(available: seq<Version>, s: Setting, plan: Plan, k: nat)
    requires NoDuplicates(available) && FollowsSteps(map[], available, s, plan)
    requires s.policy == Latest(k) && k <= |Loadable(Elems(available), s)|
    ensures
      var best := Selected(s.policy, Loadable(Elems(available), s)) - s.blocked;
      ComesDown(available, k, s.loads) ==> forall v: Version :: Up(After(map[], s, plan), v) <==> v in best
    ensures s.blocked == {} ==>
              ((forall v: Version ::
                  Up(After(map[], s, plan), v) <==> v in Selected(s.policy, Loadable(Elems(available), s))) <==>
               ComesDown(available, k, s.loads))
  {
    FallsBackExactly(available, s, plan);
    WalkExactly(map[], s, available, k);
  }

  /** The start loop ends with the greatest loadable versions selected. */
  ghost predicate EndsWithBest(view: View, s: Setting, remaining: seq<Version>) {
    Selected(s.policy, Loadable(Elems(remaining), s)) <= Selected(s.policy, Elems(LeftByLoop(view, s, remaining)))
  }

  ghost function LeftByLoop(view: View, s: Setting, remaining: seq<Version>): seq<Version> {
    EraseAll(remaining, FailedIn(Flat(Rounds(view, s, remaining)), s.loads))
  }

  /** From a state of the start loop in which every registered version that is left loads. */
  lemma {:induction false} WalkExactly(view: View, s: Setting, remaining: seq<Version>, k: nat)
    requires NoDuplicates(remaining) && s.policy == Latest(k) && k <= |Loadable(Elems(remaining), s)|
    requires forall v: Version :: v in remaining && v in view ==> s.loads(v)
    ensures EndsWithBest(view, s, remaining) <==> ComesDown(remaining, k, s.loads)
    decreases Elems(remaining) - view.Keys
  {
    var failing, batch := FailingLatest(remaining, k, s.loads), InOrder(ToStart(view, s, remaining));
    FailingOfBatch(view, s, remaining, k);
    if failing == {} {
      WalkEnds(view, s, remaining, k);
    } else {
      var view', left := AfterRound(view, s, batch), LeftAfterRound(s, remaining, batch);
      RoundShrinks(view, s, remaining);
      EraseAllFacts(remaining, InOrder(failing));
      LoopGoesOn(view, s, remaining);
      if ErasesAll(remaining, InOrder(failing)) {
        RegisteredLoad(view, s, remaining, failing, left);
        SameLoadable(remaining, left, failing, s);
        WalkExactly(view', s, left, k);
      } else {
        var v: Version :| v in InOrder(failing) && v in left;
        RoundsDone(view', s, left);
        StuckIsSelected(view', s, remaining, left, k, v);
      }
    }
  }

  lemma WalkEnds(view: View, s: Setting, remaining: seq<Version>, k: nat)
    requires s.policy == Latest(k) && FailingLatest(remaining, k, s.loads) == {}
    requires FailedIn(InOrder(ToStart(view, s, remaining)), s.loads) == []
    ensures EndsWithBest(view, s, remaining)
  {
    FlatAtOnce(view, s, remaining);
    forall v: Version | v in Selected(s.policy, Elems(remaining)) ensures v in Loadable(Elems(remaining), s) {
      assert v !in FailingLatest(remaining, k, s.loads);
    }
    SelectedWithin(s.policy, Elems(remaining), Loadable(Elems(remaining), s));
  }

  lemma LoopGoesOn(view: View, s: Setting, remaining: seq<Version>)
    requires ToStart(view, s, remaining) != {} && FailedIn(InOrder(ToStart(view, s, remaining)), s.loads) != []
    ensures
      var batch := InOrder(ToStart(view, s, remaining));
      LeftByLoop(view, s, remaining) == LeftByLoop(AfterRound(view, s, batch), s, LeftAfterRound(s, remaining, batch))
  {
    var batch := InOrder(ToStart(view, s, remaining));
    var rest := Rounds(AfterRound(view, s, batch), s, LeftAfterRound(s, remaining, batch));
    FlatCons(batch, rest);
    LeftAfterMore(s, remaining, batch, Flat(rest));
  }

  /** What fails in a round is what fails of the k greatest versions left. */
  lemma FailingOfBatch(view: View, s: Setting, remaining: seq<Version>, k: nat)
    requires s.policy == Latest(k) && forall v: Version :: v in remaining && v in view ==> s.loads(v)
    ensures
      var failing, batch := FailingLatest(remaining, k, s.loads), InOrder(ToStart(view, s, remaining));
      && FailedIn(batch, s.loads) == InOrder(failing)
      && (forall v: Version :: v in InOrder(failing) <==> v in failing)
      && (forall v: Version :: v in batch <==> v in ToStart(view, s, remaining))
      && (failing == {} <==> FailedIn(batch, s.loads) == [])
      && (failing != {} ==> ToStart(view, s, remaining) != {})
  {
    var failing, batch := FailingLatest(remaining, k, s.loads), InOrder(ToStart(view, s, remaining));
    InOrderExactly(ToStart(view, s, remaining));
    InOrderExactly(failing);
    KeepExact(batch, Fails(s.loads));
    KeepAscends(batch, Fails(s.loads));
    forall v: Version ensures v in FailedIn(batch, s.loads) <==> v in failing {
      assert v in failing ==> v in Elems(remaining);
    }
    IsInOrder(FailedIn(batch, s.loads), failing);
    EmptyExactly(FailedIn(batch, s.loads));
  }

  lemma SameLoadable(remaining: seq<Version>, left: seq<Version>, failing: set<Version>, s: Setting)
    requires Elems(remaining) - failing <= Elems(left) <= Elems(remaining)
    requires forall v: Version :: v in failing ==> !s.loads(v)
    ensures Loadable(Elems(left), s) == Loadable(Elems(remaining), s)
  {}

  lemma RegisteredLoad(view: View, s: Setting, remaining: seq<Version>, failing: set<Version>, left: seq<Version>)
    requires forall v: Version :: v in remaining && v in view ==> s.loads(v)
    requires Elems(left) <= Elems(remaining) && forall v: Version :: v in failing ==> v !in left
    requires forall v: Version :: v in ToStart(view, s, remaining) && !s.loads(v) ==> v in failing
    requires forall v: Version ::
               v in InOrder(ToStart(view, s, remaining)) <==> v in ToStart(view, s, remaining)
    ensures forall v: Version ::
              v in left && v in AfterRound(view, s, InOrder(ToStart(view, s, remaining))) ==> s.loads(v)
  {
    forall v: Version | v in left ensures v in remaining {
      assert v in Elems(left);
    }
  }

  /** A failed version that is not erased keeps its place among the k greatest. */
  lemma StuckIsSelected(view: View, s: Setting, remaining: seq<Version>, left: seq<Version>, k: nat, v: Version)
    requires s.policy == Latest(k) && k <= |Loadable(Elems(remaining), s)|
    requires LoopFacts(view, s, left) && Elems(left) <= Elems(remaining)
    requires v in left && v in view && v in FailingLatest(remaining, k, s.loads)
    ensures !(Selected(s.policy, Loadable(Elems(remaining), s)) <= Selected(s.policy, Elems(LeftByLoop(view, s, left))))
  {
    var last := Elems(LeftByLoop(view, s, left));
    var best := Selected(s.policy, Loadable(Elems(remaining), s));
    assert v in last;
    SelectedKept(s.policy, Elems(remaining), last, v);
    LatestAreGreatest(k, Loadable(Elems(remaining), s));
    LatestAreGreatest(k, last);
    if best <= Selected(s.policy, last) {
      assert v !in best;
      SubsetSize(best + {v}, Selected(s.policy, last));
    }
  }

  // ---- latest(1) ----

  function UpTo(v: Version): Version -> bool {
    (u: Version) => u <= v
  }

  /** The search finds v in the list without the versions greater than v. */
  predicate FoundAsGreatest(available: seq<Version>, v: Version) {
    Finds(Keep(available, UpTo(v)), v)
  }

  /**
   * With latest(1), if g is the greatest version that loads, the start loop comes down to it if and
   * only if every greater version is found once it is the greatest left.
   */
  lemma {:induction false} ReachedExactly(view: View, s: Setting, remaining: seq<Version>, g: Version)
    requires NoDuplicates(remaining) && s.policy == Latest(1)
    requires g in remaining && s.loads(g) && forall v: Version :: v in remaining && v > g ==> !s.loads(v)
    requires forall v: Version :: v in remaining ==> v !in view
    ensures g in Flat(Rounds(view, s, remaining)) <==>
            forall v: Version :: v in remaining && v > g ==> FoundAsGreatest(remaining, v)
    decreases |remaining|
  {
    var m := GreatestOf(remaining);
    if m == g {
      GreatestStarts(view, s, remaining, m);
      FlatCons([m], []);
    } else {
      var view', left := AfterRound(view, s, [m]), Erase(remaining, m);
      FailedRound(view, s, remaining, m);
      KeepAll(remaining, UpTo(m));
      if Finds(remaining, m) {
        WithoutGreatest(remaining, m);
        ReachedExactly(view', s, left, g);
        ReachedLater(remaining, m, g);
      } else {
        NothingElse(view', s, remaining, m);
        assert !FoundAsGreatest(remaining, m);
      }
    }
  }

  lemma ReachedLater(remaining: seq<Version>, m: Version, g: Version)
    requires Finds(remaining, m) && m in remaining && m > g && Keep(remaining, UpTo(m)) == remaining
    requires forall v: Version :: v in remaining ==> v <= m
    requires forall v: Version :: v in Erase(remaining, m) <==> v in remaining && v != m
    ensures
      (forall v: Version :: v in Erase(remaining, m) && v > g ==> FoundAsGreatest(Erase(remaining, m), v)) <==>
      (forall v: Version :: v in remaining && v > g ==> FoundAsGreatest(remaining, v))
  {
    forall v: Version | v in Erase(remaining, m)
      ensures FoundAsGreatest(Erase(remaining, m), v) <==> FoundAsGreatest(remaining, v)
    {
      GreatestDropped(remaining, m, v);
    }
    assert FoundAsGreatest(remaining, m);
  }

  /** A round in which the only version started fails. */
  lemma FailedRound(view: View, s: Setting, remaining: seq<Version>, m: Version)
    requires s.policy == Latest(1) && m in remaining && m !in view && !s.loads(m)
    requires forall v: Version :: v in remaining ==> v <= m
    ensures Flat(Rounds(view, s, remaining)) ==
            [m] + Flat(Rounds(AfterRound(view, s, [m]), s, Erase(remaining, m)))
    ensures forall v: Version :: v in AfterRound(view, s, [m]) <==> v in view || v == m
  {
    GreatestStarts(view, s, remaining, m);
    FailsAlone(m, s.loads);
    EraseOne(remaining, m);
    FlatCons([m], Rounds(AfterRound(view, s, [m]), s, Erase(remaining, m)));
  }

  lemma FailsAlone(m: Version, loads: Version -> bool)
    requires !loads(m)
    ensures FailedIn([m], loads) == [m]
  {
    assert [m][1..] == [];
  }

  lemma EraseOne(s: seq<Version>, v: Version)
    ensures EraseAll(s, [v]) == Erase(s, v)
  {
    assert [v][..0] == [];
    assert EraseAll(s, []) == s;
  }

  lemma {:induction false} GreatestOf(s: seq<Version>) returns (m: Version)
    requires s != []
    ensures m in s && forall v: Version :: v in s ==> v <= m
  {
    m := s[0];
    if |s| > 1 {
      var rest := GreatestOf(s[1..]);
      assert s == [s[0]] + s[1..];
      m := if rest > s[0] then rest else s[0];
    }
  }

  /** latest(1) selects the greatest version alone. */
  lemma OnlyGreatest(remaining: seq<Version>, m: Version)
    requires m in remaining && forall v: Version :: v in remaining ==> v <= m
    ensures Selected(Latest(1), Elems(remaining)) == {m}
  {
    assert Greater(Elems(remaining), m) == {};
    forall v: Version | v in remaining && v != m ensures |Greater(Elems(remaining), v)| >= 1 {
      assert m in Greater(Elems(remaining), v);
    }
  }

  lemma GreatestStarts(view: View, s: Setting, remaining: seq<Version>, m: Version)
    requires s.policy == Latest(1) && m in remaining && m !in view
    requires forall v: Version :: v in remaining ==> v <= m
    ensures InOrder(ToStart(view, s, remaining)) == [m] && ToStart(view, s, remaining) == {m}
  {
    OnlyGreatest(remaining, m);
    assert ToStart(view, s, remaining) == {m};
    IsInOrder([m], {m});
  }

  /** A failed version that is not found is selected again and again. */
  lemma NothingElse(view: View, s: Setting, remaining: seq<Version>, m: Version)
    requires s.policy == Latest(1) && m in remaining && m in view
    requires forall v: Version :: v in remaining ==> v <= m
    ensures Rounds(view, s, remaining) == []
  {
    OnlyGreatest(remaining, m);
  }

  lemma WithoutGreatest(remaining: seq<Version>, m: Version)
    requires NoDuplicates(remaining) && Finds(remaining, m)
    ensures
      var left := Erase(remaining, m);
      NoDuplicates(left) && |left| < |remaining| && forall v: Version :: v in left <==> v in remaining && v != m
  {
    KeepExact(remaining, Other(m));
    KeepUnique(remaining, Other(m));
    KeepShorter(remaining, Other(m), m);
  }

  lemma {:induction false} KeepShorter(s: seq<Version>, keep: Version -> bool, v: Version)
    requires v in s && !keep(v)
    ensures |Keep(s, keep)| < |s|
  {
    if s[0] != v {
      KeepShorter(s[1..], keep, v);
    }
  }

  /** Without a greater version the list up to v is the same. */
  lemma GreatestDropped(remaining: seq<Version>, m: Version, v: Version)
    requires v < m
    ensures Finds(remaining, m) ==> (FoundAsGreatest(Erase(remaining, m), v) <==> FoundAsGreatest(remaining, v))
  {
    KeepTwice(remaining, m, v);
  }

  lemma {:induction false} KeepTwice(s: seq<Version>, m: Version, v: Version)
    requires v < m
    ensures Keep(Keep(s, Other(m)), UpTo(v)) == Keep(s, UpTo(v))
  {
    if s != [] {
      KeepTwice(s[1..], m, v);
      var rest := Keep(s[1..], Other(m));
      if Other(m)(s[0]) {
        assert ([s[0]] + rest)[1..] == rest;
      } else {
        assert [] + rest == rest;
      }
    }
  }

  /**
   * latest(1) on a model without versions: the greatest loadable version g is served if and only if
   * every greater version is found once it is the greatest left, which is to say that the version
   * selected when the start loop ends can be loaded. Nothing else is ever served.
   */
  lemma GreatestServedExactly(available: seq<Version>, s: Setting, plan: Plan, g: Version)
    requires NoDuplicates(available) && FollowsSteps(map[], available, s, plan)
    requires s.policy == Latest(1) && s.blocked == {}
    requires g in available && s.loads(g) && forall v: Version :: v in available && v > g ==> !s.loads(v)
    ensures Up(After(map[], s, plan), g) <==>
            forall v: Version :: v in available && v > g ==> FoundAsGreatest(available, v)
    ensures Up(After(map[], s, plan), g) <==> forall v: Version :: v in FirstSelected(available, s, plan) ==> s.loads(v)
    ensures forall v: Version :: Up(After(map[], s, plan), v) ==> v == g
  {
    RoundsDone(map[], s, available);
    ReachedExactly(map[], s, available, g);
    ServedInAnyOrder(available, s, plan);
    GreatestLeft(available, s, plan, g);
  }

  lemma GreatestLeft(available: seq<Version>, s: Setting, plan: Plan, g: Version)
    requires LoopDone(map[], s, available, plan.started, LeftAfterStarts(available, s, plan))
    requires s.policy == Latest(1) && g in available && s.loads(g)
    requires forall v: Version :: v in available && v > g ==> !s.loads(v)
    ensures
      var first := FirstSelected(available, s, plan);
      && (g in first <==> g in plan.started)
      && (g in first <==> forall v: Version :: v in first ==> s.loads(v))
      && (forall v: Version :: v in first && s.loads(v) ==> v == g)
  {
    var left := LeftAfterStarts(available, s, plan);
    assert g in Elems(available) && g in Elems(left);
    var m := GreatestOf(left);
    OnlyGreatest(left, m);
    assert m in Elems(left);
  }

  /**
   * On a list in ascending order this is always so, and a list on which every version is found is
   * in ascending order. But with "10" before "9", if version 10 cannot be loaded, version 9 is not tried.
   */
  lemma NameOrderStopsFallback(u: Version, v: Version, s: Setting, plan: Plan)
    requires u < v && s.policy == Latest(1) && s.blocked == {} && s.loads(u) && !s.loads(v)
    requires FollowsSteps(map[], [v, u], s, plan)
    ensures forall w: Version :: !Up(After(map[], s, plan), w)
    ensures u in Loadable({u, v}, s)
  {
    NotFoundAsGreatest([v, u]);
    NothingServed([v, u], s, plan, u, v);
  }

  /** If a version that is greater than every loadable one is not found, nothing is served. */
  lemma NothingServed(available: seq<Version>, s: Setting, plan: Plan, g: Version, v: Version)
    requires NoDuplicates(available) && FollowsSteps(map[], available, s, plan)
    requires s.policy == Latest(1) && s.blocked == {}
    requires g in available && s.loads(g) && forall w: Version :: w in available && w > g ==> !s.loads(w)
    requires v in available && v > g && !FoundAsGreatest(available, v)
    ensures forall w: Version :: !Up(After(map[], s, plan), w)
  {
    GreatestServedExactly(available, s, plan, g);
  }

  lemma NotFoundAsGreatest(s: seq<Version>)
    requires |s| == 2 && s[1] < s[0]
    ensures s[0] in s && !FoundAsGreatest(s, s[0])
  {
    KeepAll(s, UpTo(s[0]));
    NotFoundInNameOrder(s);
  }
}
