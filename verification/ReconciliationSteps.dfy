/** The steps of one reconciliation of a model with its version directory, for versions in any order. */
module ReconciliationSteps {
  import opened Models = Model
  import opened ModelConfig
  import opened VersionChange
  import opened VersionPolicy
  import opened VersionSearch
  import opened Versions

  /** The fixed surroundings of one call; loads says for every version whether loading it succeeds. */
  datatype Setting = Setting(config: Config, policy: Policy, blocked: set<Version>, loads: Version -> bool)

  /**
   * The versions that a call started, those among them that it started in the last round of its
   * loop, and the versions that it reloaded, retired and cleaned up.
   */
  datatype Plan = Plan(started: seq<Version>, lastRound: seq<Version>, reloaded: seq<Version>,
                       retired: seq<Version>, cleaned: seq<Version>)

  function FailedIn(versions: seq<Version>, loads: Version -> bool): seq<Version> {
    Keep(versions, Fails(loads))
  }

  function FailedOf(versions: seq<Version>, loads: Version -> bool): set<Version> {
    set v | v in versions && !loads(v)
  }

  lemma KeepFailed(versions: seq<Version>, loads: Version -> bool)
    ensures Elems(FailedIn(versions, loads)) == FailedOf(versions, loads)
    ensures FailedIn(versions, loads) == [] <==> FailedOf(versions, loads) == {}
  {
    KeepExact(versions, Fails(loads));
    var failed := FailedIn(versions, loads);
    EmptyExactly(failed);
    assert forall v: Version :: v in failed <==> v in Elems(failed);
    assert Elems(failed) == FailedOf(versions, loads);
  }

  function Failed(s: Setting, plan: Plan): set<Version> {
    FailedOf(plan.started, s.loads) + FailedOf(plan.reloaded, s.loads)
  }

  function AfterStarts(view: View, s: Setting, plan: Plan): View {
    Started(view, plan.started, s.config, s.loads)
  }

  function AfterReloads(view: View, s: Setting, plan: Plan): View {
    Reloaded(AfterStarts(view, s, plan), plan.reloaded, s.config, s.loads)
  }

  function After(view: View, s: Setting, plan: Plan): View {
    CleanedUp(Retired(AfterReloads(view, s, plan), plan.retired), plan.cleaned)
  }

  ghost predicate Up(view: View, v: Version) {
    v in view && view[v].Available()
  }

  /** The change that brings the model to what the policy selects of the available versions. */
  ghost predicate ChangeFor(view: View, s: Setting, available: seq<Version>, change: Change) {
    IsChange(view, s.config, Wanted(view, Selected(s.policy, Elems(available)), s.blocked), change)
  }

  // ---- The start loop ----

  /** What the next round starts. */
  ghost function ToStart(view: View, s: Setting, remaining: seq<Version>): set<Version> {
    Selected(s.policy, Elems(remaining)) - view.Keys
  }

  /**
   * The rounds of the start loop. A round starts everything selected of what remains and not
   * registered; after a failure the failed versions that are found are erased and another round
   * follows.
   */
  ghost function Rounds(view: View, s: Setting, remaining: seq<Version>): seq<seq<Version>>
    decreases Elems(remaining) - view.Keys
  {
    if ToStart(view, s, remaining) == {} then []
    else
      var batch := InOrder(ToStart(view, s, remaining));
      if FailedIn(batch, s.loads) == [] then [batch]
      else
        RoundShrinks(view, s, remaining);
        [batch] + Rounds(AfterRound(view, s, batch), s, LeftAfterRound(s, remaining, batch))
  }

  function AfterRound(view: View, s: Setting, batch: seq<Version>): View {
    Started(view, batch, s.config, s.loads)
  }

  function LeftAfterRound(s: Setting, remaining: seq<Version>, batch: seq<Version>): seq<Version> {
    EraseAll(remaining, FailedIn(batch, s.loads))
  }

  /** Every round leaves fewer available versions unregistered. */
  lemma RoundShrinks(view: View, s: Setting, remaining: seq<Version>)
    requires ToStart(view, s, remaining) != {}
    ensures
      var batch := InOrder(ToStart(view, s, remaining));
      Elems(LeftAfterRound(s, remaining, batch)) - AfterRound(view, s, batch).Keys < Elems(remaining) - view.Keys
  {
    var batch := InOrder(ToStart(view, s, remaining));
    InOrderExactly(ToStart(view, s, remaining));
    EraseAllShrinks(remaining, FailedIn(batch, s.loads));
    var v: Version :| v in ToStart(view, s, remaining);
    assert v in batch && v in Elems(remaining) - view.Keys;
  }

  function Flat(rounds: seq<seq<Version>>): seq<Version> {
    if rounds == [] then [] else Flat(rounds[..|rounds| - 1]) + rounds[|rounds| - 1]
  }

  function LastOf(rounds: seq<seq<Version>>): seq<Version> {
    if rounds == [] then [] else rounds[|rounds| - 1]
  }

  lemma {:induction false} FlatCons(batch: seq<Version>, rounds: seq<seq<Version>>)
    ensures Flat([batch] + rounds) == batch + Flat(rounds)
  {
    var all := [batch] + rounds;
    if rounds == [] {
      assert all[..0] == [];
    } else {
      assert all[..|all| - 1] == [batch] + rounds[..|rounds| - 1];
      FlatCons(batch, rounds[..|rounds| - 1]);
    }
  }

  lemma FlatOneMore(rounds: seq<seq<Version>>, batch: seq<Version>)
    ensures Flat(rounds + [batch]) == Flat(rounds) + batch && LastOf(rounds + [batch]) == batch
  {
    assert (rounds + [batch])[..|rounds|] == rounds;
  }

  /** What was started is available, new, and selected if it loads; everything selected is registered. */
  ghost predicate LoopDone(view: View, s: Setting, remaining: seq<Version>, started: seq<Version>, left: seq<Version>) {
    && NoDuplicates(left)
    && Elems(remaining) - FailedOf(started, s.loads) <= Elems(left) <= Elems(remaining)
    && (forall v: Version :: v in started ==> v in remaining && v !in view)
    && (forall v: Version :: v in started && s.loads(v) ==> v in Selected(s.policy, Elems(left)))
    && (forall v: Version :: v in Selected(s.policy, Elems(left)) ==> v in view || v in started)
  }

  /** The facts about one call of the start loop, for versions in any order. */
  lemma {:induction false} RoundsDone(view: View, s: Setting, remaining: seq<Version>)
    requires NoDuplicates(remaining)
    ensures LoopFacts(view, s, remaining)
    decreases Elems(remaining) - view.Keys
  {
    var batch := InOrder(ToStart(view, s, remaining));
    if ToStart(view, s, remaining) == {} || FailedIn(batch, s.loads) == [] {
      FactsAtOnce(view, s, remaining);
    } else {
      RoundShrinks(view, s, remaining);
      EraseAllFacts(remaining, FailedIn(batch, s.loads));
      RoundsDone(AfterRound(view, s, batch), s, LeftAfterRound(s, remaining, batch));
      FactsOneRoundBefore(view, s, remaining);
    }
  }

  ghost predicate LoopFacts(view: View, s: Setting, remaining: seq<Version>) {
    var started := Flat(Rounds(view, s, remaining));
    LoopDone(view, s, remaining, started, EraseAll(remaining, FailedIn(started, s.loads)))
  }

  lemma FactsAtOnce(view: View, s: Setting, remaining: seq<Version>)
    requires NoDuplicates(remaining)
    requires ToStart(view, s, remaining) == {} || FailedIn(InOrder(ToStart(view, s, remaining)), s.loads) == []
    ensures LoopFacts(view, s, remaining)
  {
    var batch := InOrder(ToStart(view, s, remaining));
    InOrderExactly(ToStart(view, s, remaining));
    KeepFailed(batch, s.loads);
    FlatAtOnce(view, s, remaining);
    LoopDoneAtOnce(view, s, remaining, batch);
  }

  lemma FlatAtOnce(view: View, s: Setting, remaining: seq<Version>)
    requires ToStart(view, s, remaining) == {} || FailedIn(InOrder(ToStart(view, s, remaining)), s.loads) == []
    ensures
      var batch := InOrder(ToStart(view, s, remaining));
      Flat(Rounds(view, s, remaining)) == batch && FailedIn(batch, s.loads) == []
  {
    FlatCons(InOrder(ToStart(view, s, remaining)), []);
  }

  lemma FactsOneRoundBefore(view: View, s: Setting, remaining: seq<Version>)
    requires NoDuplicates(remaining) && ToStart(view, s, remaining) != {}
    requires
      var batch := InOrder(ToStart(view, s, remaining));
      FailedIn(batch, s.loads) != [] && LoopFacts(AfterRound(view, s, batch), s, LeftAfterRound(s, remaining, batch))
    ensures LoopFacts(view, s, remaining)
  {
    var batch := InOrder(ToStart(view, s, remaining));
    InOrderExactly(ToStart(view, s, remaining));
    KeepFailed(batch, s.loads);
    var view', left := AfterRound(view, s, batch), LeftAfterRound(s, remaining, batch);
    var rest := Flat(Rounds(view', s, left));
    EraseAllFacts(remaining, FailedIn(batch, s.loads));
    FlatCons(batch, Rounds(view', s, left));
    LeftAfterMore(s, remaining, batch, rest);
    LoopDoneBefore(view, s, remaining, batch, left, rest);
  }

  lemma LoopDoneAtOnce(view: View, s: Setting, remaining: seq<Version>, batch: seq<Version>)
    requires NoDuplicates(remaining) && FailedOf(batch, s.loads) == {}
    requires forall v: Version :: v in batch <==> v in ToStart(view, s, remaining)
    ensures LoopDone(view, s, remaining, batch, remaining)
  {
    forall v: Version | v in Selected(s.policy, Elems(remaining)) ensures v in view || v in batch {
      assert v in view || v in ToStart(view, s, remaining);
    }
  }

  lemma LeftAfterMore(s: Setting, remaining: seq<Version>, batch: seq<Version>, rest: seq<Version>)
    ensures EraseAll(remaining, FailedIn(batch + rest, s.loads)) ==
            EraseAll(LeftAfterRound(s, remaining, batch), FailedIn(rest, s.loads))
  {
    KeepConcat(batch, rest, Fails(s.loads));
    EraseAllConcat(remaining, FailedIn(batch, s.loads), FailedIn(rest, s.loads));
  }

  lemma LoopDoneBefore(view: View, s: Setting, remaining: seq<Version>, batch: seq<Version>, left: seq<Version>,
                       rest: seq<Version>)
    requires forall v: Version :: v in batch <==> v in ToStart(view, s, remaining)
    requires Elems(remaining) - FailedOf(batch, s.loads) <= Elems(left) <= Elems(remaining)
    requires LoopDone(AfterRound(view, s, batch), s, left, rest, EraseAll(left, FailedIn(rest, s.loads)))
    ensures LoopDone(view, s, remaining, batch + rest, EraseAll(left, FailedIn(rest, s.loads)))
  {
    var last := EraseAll(left, FailedIn(rest, s.loads));
    forall v: Version | v in batch && s.loads(v) ensures v in Selected(s.policy, Elems(last)) {
      assert v in Elems(left) && v !in rest;
      SelectedKept(s.policy, Elems(remaining), Elems(last), v);
    }
    forall v: Version | v in rest ensures v in Elems(left) {
    }
  }

  /** Every started version was selected when it was started: of a set with everything usable in it. */
  lemma {:induction false} StartedWasSelected(view: View, s: Setting, remaining: seq<Version>, usable: set<Version>,
                                              v: Version)
    requires NoDuplicates(remaining) && v in Flat(Rounds(view, s, remaining))
    requires usable <= Elems(remaining) && forall u: Version :: u in usable ==> u in view || s.loads(u)
    ensures v in Selected(s.policy, usable + {v})
    decreases Elems(remaining) - view.Keys
  {
    var batch := InOrder(ToStart(view, s, remaining));
    InOrderExactly(ToStart(view, s, remaining));
    if FailedIn(batch, s.loads) == [] {
      FlatCons(batch, []);
    } else {
      FlatCons(batch, Rounds(AfterRound(view, s, batch), s, LeftAfterRound(s, remaining, batch)));
    }
    if v in batch {
      SelectedKept(s.policy, Elems(remaining), usable + {v}, v);
    } else {
      KeepFailed(batch, s.loads);
      EraseAllFacts(remaining, FailedIn(batch, s.loads));
      RoundShrinks(view, s, remaining);
      StartedWasSelected(AfterRound(view, s, batch), s, LeftAfterRound(s, remaining, batch), usable, v);
    }
  }

  // ---- The loop in progress ----

  /** The rounds done so far, and those that follow from where the loop stands. */
  ghost predicate RoundsSoFar(view: View, s: Setting, available: seq<Version>, rounds: seq<seq<Version>>,
                              remaining: seq<Version>) {
    && remaining == EraseAll(available, FailedIn(Flat(rounds), s.loads))
    && Rounds(view, s, available) == rounds + Rounds(Started(view, Flat(rounds), s.config, s.loads), s, remaining)
  }

  lemma LoopBegins(view: View, s: Setting, available: seq<Version>)
    ensures Started(view, [], s.config, s.loads) == view && RoundsSoFar(view, s, available, [], available)
  {}

  lemma BatchOfChange(view: View, s: Setting, remaining: seq<Version>, change: Change)
    requires ChangeFor(view, s, remaining, change)
    ensures change.start == InOrder(ToStart(view, s, remaining))
    ensures change.start == [] <==> ToStart(view, s, remaining) == {}
  {
    IsInOrder(change.start, ToStart(view, s, remaining));
    EmptyExactly(change.start);
  }

  /** What a round adds to the state of the start loop. */
  lemma RoundDone(view: View, s: Setting, available: seq<Version>, rounds: seq<seq<Version>>, before: View,
                  remaining: seq<Version>, change: Change)
    requires RoundsSoFar(view, s, available, rounds, remaining)
    requires before == Started(view, Flat(rounds), s.config, s.loads)
    requires ChangeFor(before, s, remaining, change) && change.start != []
    ensures
      var more := rounds + [change.start];
      && Flat(more) == Flat(rounds) + change.start && LastOf(more) == change.start
      && AfterRound(before, s, change.start) == Started(view, Flat(more), s.config, s.loads)
      && (FailedIn(change.start, s.loads) == [] ==> Rounds(view, s, available) == more)
      && (FailedIn(change.start, s.loads) != [] ==>
            RoundsSoFar(view, s, available, more, LeftAfterRound(s, remaining, change.start)))
  {
    FlatOneMore(rounds, change.start);
    StartedMore(view, Flat(rounds), change.start, s.config, s.loads);
    BatchOfChange(before, s, remaining, change);
    LeftAfterMore(s, available, Flat(rounds), change.start);
    RoundsUnfold(before, s, remaining, change.start, rounds);
  }

  lemma RoundsUnfold(view: View, s: Setting, remaining: seq<Version>, batch: seq<Version>, rounds: seq<seq<Version>>)
    requires ToStart(view, s, remaining) != {} && batch == InOrder(ToStart(view, s, remaining))
    ensures
      rounds + Rounds(view, s, remaining) ==
      rounds + [batch] + if FailedIn(batch, s.loads) == [] then []
                         else Rounds(AfterRound(view, s, batch), s, LeftAfterRound(s, remaining, batch))
  {
    if FailedIn(batch, s.loads) != [] {
      RoundsMove(rounds, batch, Rounds(AfterRound(view, s, batch), s, LeftAfterRound(s, remaining, batch)));
    }
  }

  lemma RoundsMove(rounds: seq<seq<Version>>, batch: seq<Version>, rest: seq<seq<Version>>)
    ensures rounds + ([batch] + rest) == rounds + [batch] + rest
  {}

  /** The loop ends when there is nothing to start. */
  lemma LoopEnds(view: View, s: Setting, available: seq<Version>, rounds: seq<seq<Version>>, now: View,
                 remaining: seq<Version>, change: Change)
    requires RoundsSoFar(view, s, available, rounds, remaining) && now == Started(view, Flat(rounds), s.config, s.loads)
    requires ChangeFor(now, s, remaining, change) && change.start == []
    ensures Rounds(view, s, available) == rounds
  {
    BatchOfChange(now, s, remaining, change);
    assert rounds + [] == rounds;
  }

  // ---- The reloads ----

  /** Every requested version is registered, and the list holds those that need a reload. */
  ghost predicate ReloadListExact(view: View, s: Setting, requested: set<Version>, reload: seq<Version>) {
    && Ascending(reload)
    && (forall v: Version :: v in requested ==> v in view)
    && (forall v: Version :: v in reload <==>
          v in requested && v in view && v !in s.blocked && NeedsReload(view[v], s.config))
  }

  lemma NothingToStart(view: View, s: Setting, requested: set<Version>, change: Change)
    requires IsChange(view, s.config, Wanted(view, requested, s.blocked), change) && change.start == []
    ensures ReloadListExact(view, s, requested, change.reload)
  {
    assert forall v: Version :: v !in change.start;
  }

  /** The lists computed before a start without failures are still right after it. */
  lemma AllStarted(view: View, s: Setting, requested: set<Version>, change: Change)
    requires IsChange(view, s.config, Wanted(view, requested, s.blocked), change)
    requires FailedIn(change.start, s.loads) == []
    ensures ReloadListExact(Started(view, change.start, s.config, s.loads), s, requested, change.reload)
  {
    KeepFailed(change.start, s.loads);
    forall v: Version | v in change.start ensures s.loads(v) {
      assert s.loads(v) || v in FailedOf(change.start, s.loads);
    }
  }

  // ---- Retiring and cleaning up ----

  /** What is registered, not wanted and not ending already. */
  ghost function Gone(view: View, s: Setting, requested: set<Version>): set<Version> {
    set v | v in view && v !in Wanted(view, requested, s.blocked) && !view[v].status.WillEndUnloaded()
  }

  /** Of the versions to retire, split by whether they failed in this call. */
  ghost predicate SplitExactly(view: View, s: Setting, requested: set<Version>, failed: set<Version>,
                               retired: seq<Version>, cleaned: seq<Version>) {
    && Ascending(retired) && Ascending(cleaned)
    && (forall v: Version :: v in retired <==> v in Gone(view, s, requested) && v !in failed)
    && (forall v: Version :: v in cleaned <==> v in Gone(view, s, requested) && v in failed)
  }

  lemma Split(view: View, s: Setting, available: seq<Version>, change: Change, failed: set<Version>)
    requires ChangeFor(view, s, available, change)
    ensures SplitExactly(view, s, Selected(s.policy, Elems(available)), failed,
                         Keep(change.retire, NotIn(failed)), Keep(change.retire, In(failed)))
  {
    KeepExact(change.retire, NotIn(failed));
    KeepAscends(change.retire, NotIn(failed));
    KeepExact(change.retire, In(failed));
    KeepAscends(change.retire, In(failed));
  }

  // ---- The whole call ----

  /** What is left of the available versions after the start loop, and at the end. */
  function LeftAfterStarts(available: seq<Version>, s: Setting, plan: Plan): seq<Version> {
    EraseAll(available, FailedIn(plan.started, s.loads))
  }

  function LeftAtEnd(available: seq<Version>, s: Setting, plan: Plan): seq<Version> {
    EraseAll(LeftAfterStarts(available, s, plan), FailedIn(plan.lastRound, s.loads) + FailedIn(plan.reloaded, s.loads))
  }

  /** The plan of a call on a list of available versions in any order. */
  ghost predicate FollowsSteps(view: View, available: seq<Version>, s: Setting, plan: Plan) {
    && plan.started == Flat(Rounds(view, s, available))
    && plan.lastRound == LastOf(Rounds(view, s, available))
    && ReloadListExact(AfterStarts(view, s, plan), s, FirstSelected(available, s, plan), plan.reloaded)
    && SplitExactly(AfterReloads(view, s, plan), s, LastSelected(available, s, plan), Failed(s, plan),
                    plan.retired, plan.cleaned)
  }

  ghost function FirstSelected(available: seq<Version>, s: Setting, plan: Plan): set<Version> {
    Selected(s.policy, Elems(LeftAfterStarts(available, s, plan)))
  }

  ghost function LastSelected(available: seq<Version>, s: Setting, plan: Plan): set<Version> {
    Selected(s.policy, Elems(LeftAtEnd(available, s, plan)))
  }

  /** The model, the directory and the outcomes of loading determine what a call does. */
  lemma PlanUnique(view: View, available: seq<Version>, s: Setting, p: Plan, q: Plan)
    requires FollowsSteps(view, available, s, p) && FollowsSteps(view, available, s, q)
    ensures p == q
  {
    AscendingUnique(p.reloaded, q.reloaded);
    AscendingUnique(p.retired, q.retired);
    AscendingUnique(p.cleaned, q.cleaned);
  }

  lemma LastRoundStarted(view: View, s: Setting, available: seq<Version>)
    ensures
      var rounds := Rounds(view, s, available);
      forall v: Version :: v in LastOf(rounds) ==> v in Flat(rounds)
  {}

  // ---- A model that matches its directory ----

  ghost predicate UpToDate(view: View, s: Setting, available: seq<Version>) {
    ChangeFor(view, s, available, Change([], [], []))
  }

  /** It is left alone. */
  lemma NothingDone(view: View, available: seq<Version>, s: Setting, plan: Plan)
    requires UpToDate(view, s, available) && FollowsSteps(view, available, s, plan)
    ensures plan == Plan([], [], [], [], []) && After(view, s, plan) == view
  {
    var none: seq<Version> := [];
    assert forall v: Version :: v !in none;
    BatchOfChange(view, s, available, Change([], [], []));
    assert LeftAfterStarts(available, s, plan) == available;
    assert AfterStarts(view, s, plan) == view;
    EmptyExactly(plan.reloaded);
    assert LeftAtEnd(available, s, plan) == available;
    assert AfterReloads(view, s, plan) == view;
    EmptyExactly(plan.retired);
    EmptyExactly(plan.cleaned);
  }
}
