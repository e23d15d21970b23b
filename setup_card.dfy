/**
 * The decision logic of components/SetupCard.tsx: the scope buttons, which dispatch toggles
 * against a snapshot of the selection, the start guard with its defaults, and the selection
 * summary line.
 */
module SetupCard {

  import opened Wrappers
  import opened QpsData
  import opened Scoring
  import opened AppContext

  lemma EveryPillarListed(p: Pillar)
    ensures p in OrderedPillars && p in AllPillars
  {
    match p
    case Presence =>
    case Digital =>
    case Space =>
    case Narrative =>
    case Signature =>
  }

  lemma EveryPillarIsAll(ps: set<Pillar>)
    requires forall p :: p in ps
    ensures ps == AllPillars
  {
    forall p ensures p in AllPillars {
      EveryPillarListed(p);
    }
  }

  /** Appending one toggle to a run of actions toggles the state the run reached. */
  lemma ToggleStep(s: AppState, d0: seq<Action>, toggles: seq<Action>, t: AppState, p: Pillar)
    requires RunDefined(s, d0 + toggles) && t == Run(s, d0 + toggles)
    ensures RunDefined(s, d0 + (toggles + [TogglePillar(p)]))
    ensures Run(s, d0 + (toggles + [TogglePillar(p)])) == Reduce(t, TogglePillar(p))
  {
    RunSnoc(s, d0 + toggles, TogglePillar(p));
    assert d0 + toggles + [TogglePillar(p)] == d0 + (toggles + [TogglePillar(p)]);
  }

  /** The `orderedPillars.forEach` pass of the full scope: toggle each pillar missing from the snapshot. */
  method ToggleMissing(s: AppState, d0: seq<Action>, t0: AppState) returns (toggles: seq<Action>, t: AppState)
    requires RunDefined(s, d0) && t0 == Run(s, d0)
    ensures RunDefined(s, d0 + toggles) && t == Run(s, d0 + toggles)
    ensures forall k :: 0 <= k < |toggles| ==> toggles[k].TogglePillar?
    ensures forall p :: TogglePillar(p) in toggles <==> p !in t0.pillars
    ensures t == t0.(pillars := AllPillars)
  {
    toggles := [];
    t := t0;
    assert d0 + toggles == d0;
    for i := 0 to |OrderedPillars|
      invariant RunDefined(s, d0 + toggles) && t == Run(s, d0 + toggles)
      invariant forall k :: 0 <= k < |toggles| ==> toggles[k].TogglePillar?
      invariant forall p :: TogglePillar(p) in toggles <==> CanonicalIndex(p) < i && p !in t0.pillars
      invariant forall p :: p in t.pillars <==> p in t0.pillars || CanonicalIndex(p) < i
      invariant t == t0.(pillars := t.pillars)
    {
      var p := OrderedPillars[i];
      assert CanonicalIndex(p) == i;
      if p !in t0.pillars {
        ToggleStep(s, d0, toggles, t, p);
        ToggleFlips(t, p);
        t := Reduce(t, TogglePillar(p));
        toggles := toggles + [TogglePillar(p)];
      }
    }
    EveryPillarIsAll(t.pillars);
  }

  /** The `orderedPillars.forEach` pass of the custom scope: toggle each pillar of the snapshot. */
  method ToggleSelected(s: AppState, d0: seq<Action>, t0: AppState) returns (toggles: seq<Action>, t: AppState)
    requires RunDefined(s, d0) && t0 == Run(s, d0)
    ensures RunDefined(s, d0 + toggles) && t == Run(s, d0 + toggles)
    ensures forall k :: 0 <= k < |toggles| ==> toggles[k].TogglePillar?
    ensures forall p :: TogglePillar(p) in toggles <==> p in t0.pillars
    ensures t == t0.(pillars := {})
  {
    toggles := [];
    t := t0;
    assert d0 + toggles == d0;
    for i := 0 to |OrderedPillars|
      invariant RunDefined(s, d0 + toggles) && t == Run(s, d0 + toggles)
      invariant forall k :: 0 <= k < |toggles| ==> toggles[k].TogglePillar?
      invariant forall p :: TogglePillar(p) in toggles <==> CanonicalIndex(p) < i && p in t0.pillars
      invariant forall p :: p in t.pillars <==> p in t0.pillars && CanonicalIndex(p) >= i
      invariant t == t0.(pillars := t.pillars)
    {
      var p := OrderedPillars[i];
      assert CanonicalIndex(p) == i;
      if p in t0.pillars {
        ToggleStep(s, d0, toggles, t, p);
        ToggleFlips(t, p);
        t := Reduce(t, TogglePillar(p));
        toggles := toggles + [TogglePillar(p)];
      }
    }
    assert t.pillars == {};
  }

  /**
   * handleScopeClick: SET_SCOPE, then a pass over the canonical pillars that toggles, against the
   * selection as it was on entry, each missing pillar (full) or, when all five were selected,
   * each selected pillar (custom). Returns the dispatched actions and the state they lead to.
   */
  method HandleScopeClick(s: AppState, value: Scope) returns (dispatched: seq<Action>, t: AppState)
    ensures RunDefined(s, dispatched) && t == Run(s, dispatched)
    ensures |dispatched| >= 1 && dispatched[0] == SetScope(Some(value))
    ensures forall k :: 1 <= k < |dispatched| ==> dispatched[k].TogglePillar?
    ensures value == Full ==> t.pillars == AllPillars && forall p :: TogglePillar(p) in dispatched <==> p !in s.pillars
    ensures value == Custom && |s.pillars| == 5 ==> t.pillars == {} && forall p :: TogglePillar(p) in dispatched
    ensures value == Custom && |s.pillars| != 5 ==> dispatched == [SetScope(Some(Custom))] && t.pillars == s.pillars
    ensures t == s.(scope := Some(value), pillars := t.pillars)
  {
    var first := [SetScope(Some(value))];
    RunSnoc(s, [], SetScope(Some(value)));
    assert [] + first == first;
    var scoped := Reduce(s, SetScope(Some(value)));
    var toggles: seq<Action> := [];
    t := scoped;
    if value == Full {
      toggles, t := ToggleMissing(s, first, scoped);
    } else if |s.pillars| == 5 {
      FiveSelectedIsAll(s.pillars);
      toggles, t := ToggleSelected(s, first, scoped);
      forall p ensures TogglePillar(p) in toggles {
        EveryPillarListed(p);
      }
    } else {
      assert first + toggles == first;
    }
    dispatched := first + toggles;
    assert forall a :: a in toggles ==> a in dispatched;
    assert forall p :: TogglePillar(p) in dispatched ==> TogglePillar(p) == dispatched[0] || TogglePillar(p) in toggles;
  }

  /** The start guard's refusal: nothing is selected (the alert). */
  datatype SetupError = NothingSelected

  /**
   * handleStart: refuse an empty selection; otherwise dispatch START_FLOW with the chosen
   * respondent (default: the brand itself) and the chosen scope (default: full for five pillars,
   * custom otherwise).
   */
  function HandleStart(s: AppState): Result<Action, SetupError>
  {
    if |s.pillars| == 0 then Err(NothingSelected)
    else
      var scope := if s.scope.Some? then s.scope.value else if |s.pillars| == 5 then Full else Custom;
      var who := if s.initialWho.Some? then s.initialWho.value else MyBrand;
      Ok(StartFlow(Some(who), Some(scope), s.pillars))
  }

  /**
   * Starting is refused exactly when nothing is selected; otherwise the flow starts on the current
   * selection, as the brand itself unless a respondent was chosen, and with the full scope when
   * no scope was chosen iff all five pillars are selected.
   */
  lemma HandleStartFacts(s: AppState)
    ensures HandleStart(s).Err? <==> s.pillars == {}
    ensures HandleStart(s).Ok? ==>
      var a := HandleStart(s).value;
      && a.StartFlow? && a.flowPillars == s.pillars
      && (s.initialWho.None? ==> a.flowWho == Some(MyBrand))
      && (s.initialWho.Some? ==> a.flowWho == s.initialWho)
      && (s.scope.None? ==> (a.flowScope == Some(Full) <==> s.pillars == AllPillars) && a.flowScope.Some?)
      && (s.scope.Some? ==> a.flowScope == s.scope)
  {
    FiveSelectedIsAll(s.pillars);
  }

  /** A successful start enters the question flow with the owner unless a client respondent was chosen. */
  lemma HandleStartEntersFlow(s: AppState)
    requires HandleStart(s).Ok?
    ensures var t := Reduce(s, HandleStart(s).value);
      && t.mode == FlowMode && t.pillars == s.pillars && t.answers == s.answers
      && (t.currentRole == Some(Owner) <==> s.initialWho != Some(ClientWho))
      && t.currentPillarIndex == 0 && t.currentQuestionIndex == -1
  {
    var a := HandleStart(s).value;
    HandleStartFacts(s);
    StartFlowFacts(s, a.flowWho, a.flowScope, a.flowPillars);
    var t := Reduce(s, a);
    if s.initialWho == Some(ClientWho) {
      assert a.flowWho == Some(ClientWho);
      assert t.rolesSequence == [Client1];
    } else {
      if s.initialWho.Some? {
        assert s.initialWho.value == MyBrand;
      }
      assert a.flowWho == Some(MyBrand);
      assert t.rolesSequence == [Owner];
    }
  }

  /** An explicitly chosen full scope passes through even when a single pillar is selected. */
  lemma ExplicitScopeNotRechecked(s: AppState)
    requires s.scope == Some(Full) && s.pillars == {Presence}
    ensures HandleStart(s).Ok? && HandleStart(s).value.flowScope == Some(Full)
    ensures |Active(Reduce(s, HandleStart(s).value))| == 1
  {
    var a := HandleStart(s).value;
    assert a.flowPillars == {Presence};
    assert Reduce(s, a).pillars == {Presence};
    ActiveCount({Presence});
  }

  /** The line summarising the selection. */
  datatype SetupSummary = NothingSelectedYet | FullScan | Scanning(names: string)

  /** The pillar names joined with ", ". */
  function JoinNames(ps: seq<Pillar>): string
  {
    if |ps| <= 1 then (if ps == [] then "" else PillarName(ps[0]))
    else JoinNames(ps[..|ps| - 1]) + ", " + PillarName(ps[|ps| - 1])
  }

  /** summaryText */
  function SummaryText(s: AppState): SetupSummary
  {
    var active := Active(s);
    if |active| == 5 then FullScan
    else if |active| > 0 then Scanning(JoinNames(active))
    else NothingSelectedYet
  }

  /**
   * The full-scan line iff all five pillars are selected, the prompt iff none is, and otherwise
   * the selected names in canonical order.
   */
  lemma SummaryTextCases(s: AppState)
    ensures SummaryText(s) == FullScan <==> s.pillars == AllPillars
    ensures SummaryText(s) == NothingSelectedYet <==> s.pillars == {}
    ensures SummaryText(s).Scanning? ==> SummaryText(s).names == JoinNames(Active(s)) && 1 <= |Active(s)| <= 4
  {
    ActiveCount(s.pillars);
    FiveSelectedIsAll(s.pillars);
    var active := Active(s);
    SubsetCount(s.pillars, AllPillars) by {
      forall p | p in s.pillars ensures p in AllPillars {
        EveryPillarListed(p);
      }
    }
    assert |AllPillars| == 5;
  }
}
