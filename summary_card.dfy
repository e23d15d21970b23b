/**
 * The summary screens of components/SummaryCard.tsx: which results the summary draws on (the
 * owner's scores, the clients' details and their average), and which card each summary stage
 * shows, with the buttons it offers and the developer payload of the final stage.
 */
module SummaryCard {

  import opened Wrappers
  import opened QpsData
  import opened Scoring
  import opened Aggregation
  import opened AppContext
  import opened SummaryLens

  // ---------------------------------------------------------------------------------------
  // The results the summary draws on

  /** `ownerDone`: the owner stored an entry for some pillar, selected or not. */
  predicate OwnerDone(s: AppState)
  {
    s.answers.Of(Owner) != map[]
  }

  /** The roles of `roles` that stored an entry for some pillar, in order. */
  function AnsweredRoles(answers: Answers, roles: seq<Role>): (r: seq<Role>)
    ensures |r| <= |roles|
    ensures forall x :: x in r <==> x in roles && answers.Of(x) != map[]
  {
    if roles == [] then []
    else
      var last := roles[|roles| - 1];
      AnsweredRoles(answers, roles[..|roles| - 1]) + (if answers.Of(last) != map[] then [last] else [])
  }

  /** `clientBundles` */
  function ClientBundles(s: AppState): seq<Role>
  {
    AnsweredRoles(s.answers, ClientRoles)
  }

  /** `ownerScores` */
  function OwnerScores(s: AppState): Option<ScoresResult>
  {
    if OwnerDone(s) then Some(ScoresOf(s.answers.Of(Owner), Active(s), RoleScores(Owner))) else None
  }

  /** `clientsAvgScores` */
  function ClientsAvgScores(s: AppState): Option<ScoresResult>
  {
    if ClientBundles(s) != [] then AverageSpec(s.answers, Active(s)) else None
  }

  datatype ClientDetail = ClientDetail(role: Role, roleLabel: string, data: ScoresResult)

  /** `clientDetails` */
  function ClientDetails(s: AppState): seq<ClientDetail>
  {
    var roles := ClientBundles(s);
    seq(|roles|, i requires 0 <= i < |roles| =>
      ClientDetail(roles[i], RoleLabel(roles[i]), ScoresOf(s.answers.Of(roles[i]), Active(s), RoleScores(roles[i]))))
  }

  /** A value of a result that may be null. */
  function ScoreIn(r: Option<ScoresResult>, c: Column): Option<real>
  {
    if r.Some? then Cell(r.value, c) else None
  }

  /** `d ? d.data.pillars[key].score : null` for the detail of role `r`. */
  function DetailScore(s: AppState, r: Role, key: Pillar): Option<real>
  {
    if r in ClientBundles(s) then Cell(ScoresOf(s.answers.Of(r), Active(s), RoleScores(r)), PillarColumn(key)) else None
  }

  // ---------------------------------------------------------------------------------------
  // The cards

  /** The comparison table of one pillar: owner, clients 1-3, their average, the gap and its reading. */
  datatype PillarTable = PillarTable(owner: Option<real>, clients: seq<Option<real>>, average: Option<real>, gap: Option<real>, tone: Tone)

  datatype OverallRow = OverallRow(key: Pillar, owner: Option<real>, clients: Option<real>, gap: Option<real>)

  datatype IndicatorGap = IndicatorGap(name: string, owner: Option<real>, clients: Option<real>, gap: Option<real>, tone: Tone)

  /** The payload's `meta` without its timestamp. */
  datatype Meta = Meta(initialWho: Option<Who>, scope: Option<Scope>, pillars: seq<Pillar>, rolesSequence: seq<Role>)

  /** The developer payload: `roles` is keyed by the `meta.role` of each result. */
  datatype Payload = Payload(meta: Meta, roles: map<ScoreOwner, ScoresResult>)

  datatype Screen =
    | NoPillars
      /** The pillar stage ran past the last pillar: nothing is shown while the stage moves to overall. */
    | Redirecting
    | PillarCard(key: Pillar, number: nat, total: nat, table: PillarTable, backEnabled: bool, lastPillar: bool)
      /** `lens` is null when the owner or the clients have no results yet. */
    | PillarGhiCard(key: Pillar, number: nat, lens: Option<seq<LensCard>>)
      /** The GHI lens stage with a pillar cursor past the selection: the pillar looked up is undefined. */
    | UndefinedPillar
    | OverallCard(rows: seq<OverallRow>, globalOwner: Option<real>, globalClients: Option<real>, globalGap: Option<real>, tone: Tone)
    | OverallGhiCard(cards: Option<seq<IndicatorGap>>)
    | FinalCard(payload: Payload)
    | Blank

  /** What the summary shows, and the action it dispatches while doing so. */
  datatype Routed = Routed(screen: Screen, dispatched: Option<Action>)

  function PillarTableFor(s: AppState, key: Pillar): PillarTable
  {
    var owner := ScoreIn(OwnerScores(s), PillarColumn(key));
    var average := ScoreIn(ClientsAvgScores(s), PillarColumn(key));
    var gap := Gap(owner, average);
    PillarTable(owner, seq(|ClientRoles|, i requires 0 <= i < |ClientRoles| => DetailScore(s, ClientRoles[i], key)),
                average, gap, ToneOf(gap))
  }

  function OverallRows(s: AppState, keys: seq<Pillar>): seq<OverallRow>
  {
    seq(|keys|, i requires 0 <= i < |keys| =>
      var owner := ScoreIn(OwnerScores(s), PillarColumn(keys[i]));
      var clients := ScoreIn(ClientsAvgScores(s), PillarColumn(keys[i]));
      OverallRow(keys[i], owner, clients, Gap(owner, clients)))
  }

  /** The overall GHI cards: each indicator of the average paired with the owner's indicator at the same position. */
  function OverallGhi(owner: ScoresResult, average: ScoresResult): seq<IndicatorGap>
  {
    seq(|average.indicators|, idx requires 0 <= idx < |average.indicators| =>
      var o := Cell(owner, IndicatorColumn(idx));
      var c := average.indicators[idx].score;
      IndicatorGap(average.indicators[idx].name, o, c, Gap(o, c), ToneOf(Gap(o, c))))
  }

  /** The client entries of `roles`: each detail's result under its role. */
  function DetailsMap(details: seq<ClientDetail>): map<ScoreOwner, ScoresResult>
  {
    if details == [] then map[]
    else
      var d := details[|details| - 1];
      DetailsMap(details[..|details| - 1])[RoleScores(d.role) := d.data]
  }

  /** The entry for `key` of a result that may be null: none when it is. */
  function EntryOf(key: ScoreOwner, r: Option<ScoresResult>): map<ScoreOwner, ScoresResult>
  {
    if r.Some? then map[key := r.value] else map[]
  }

  function FinalPayload(s: AppState): Payload
  {
    Payload(Meta(s.initialWho, s.scope, Active(s), s.rolesSequence),
            EntryOf(RoleScores(Owner), OwnerScores(s)) + DetailsMap(ClientDetails(s)) + EntryOf(ClientsAverage, ClientsAvgScores(s)))
  }

  function PillarScreen(s: AppState, idx: nat): (r: Screen)
    requires idx < |Active(s)|
    ensures r.PillarCard? && r.key == Active(s)[idx]
  {
    var active := Active(s);
    PillarCard(active[idx], idx + 1, |active|, PillarTableFor(s, active[idx]), idx != 0, idx == |active| - 1)
  }

  function PillarGhiScreen(s: AppState, idx: nat): (r: Screen)
    requires idx < |Active(s)|
    ensures r.PillarGhiCard? && r.key == Active(s)[idx]
  {
    var lens := if OwnerScores(s).Some? && ClientsAvgScores(s).Some? then Some(LensOf(s.answers, Active(s)[idx], GiMap)) else None;
    PillarGhiCard(Active(s)[idx], idx + 1, lens)
  }

  function OverallScreen(s: AppState): (r: Screen)
    ensures r.OverallCard?
  {
    var globalOwner := ScoreIn(OwnerScores(s), GlobalColumn);
    var globalClients := ScoreIn(ClientsAvgScores(s), GlobalColumn);
    var globalGap := Gap(globalOwner, globalClients);
    OverallCard(OverallRows(s, Active(s)), globalOwner, globalClients, globalGap, ToneOf(globalGap))
  }

  function OverallGhiScreen(s: AppState): (r: Screen)
    ensures r.OverallGhiCard?
  {
    var cards := if OwnerScores(s).Some? && ClientsAvgScores(s).Some?
                 then Some(OverallGhi(OwnerScores(s).value, ClientsAvgScores(s).value)) else None;
    OverallGhiCard(cards)
  }

  function FinalScreen(s: AppState): (r: Screen)
    ensures r.FinalCard?
  {
    FinalCard(FinalPayload(s))
  }

  /** SummaryCard */
  function Route(s: AppState): Routed
  {
    var active := Active(s);
    if |active| == 0 then Routed(NoPillars, None)
    else
      var idx := s.summary.pillarIndex;
      match s.summary.stage
      case None => Routed(Blank, None)
      case Some(PillarStage) =>
        if idx >= |active| then Routed(Redirecting, Some(SetSummaryStage(Some(OverallStage))))
        else Routed(PillarScreen(s, idx), None)
      case Some(PillarGhiStage) =>
        if idx >= |active| then Routed(UndefinedPillar, None)
        else Routed(PillarGhiScreen(s, idx), None)
      case Some(OverallStage) => Routed(OverallScreen(s), None)
      case Some(OverallGhiStage) => Routed(OverallGhiScreen(s), None)
      case Some(FinalStage) => Routed(FinalScreen(s), None)
  }

  /** The enabled buttons of a screen that dispatch, as their actions (the PDF buttons dispatch nothing). */
  function Buttons(screen: Screen): seq<Action>
  {
    match screen
    case NoPillars => [Restart]
    case PillarCard(_, _, _, _, backEnabled, _) =>
      (if backEnabled then [PrevPillarSummary] else []) + [SetSummaryStage(Some(PillarGhiStage)), NextPillarSummary]
    case PillarGhiCard(_, _, _) => [SetSummaryStage(Some(PillarStage)), NextPillarSummary]
    case OverallCard(_, _, _, _, _) => [SetSummaryStage(Some(OverallGhiStage)), SetSummaryStage(Some(FinalStage))]
    case OverallGhiCard(_) => [SetSummaryStage(Some(OverallStage)), SetSummaryStage(Some(FinalStage))]
    case FinalCard(_) => [Restart]
    case _ => []
  }

  // ---------------------------------------------------------------------------------------
  // The results

  /**
   * The clients' average shown by the summary is exactly what averageClientScores returns: the
   * summary's own filter (any stored entry) only skips the call in cases where the average is
   * null anyway.
   */
  lemma ClientsAvgIsAverage(s: AppState)
    ensures ClientsAvgScores(s) == AverageSpec(s.answers, Active(s))
  {
    if ClientBundles(s) == [] {
      forall r | r in ClientRoles ensures !HasActiveEntry(s.answers.Of(r), Active(s)) {
        assert s.answers.Of(r) == map[];
      }
      AverageNullIff(s.answers, Active(s));
    }
  }

  /** The owner has results iff it stored an entry, and the details list each client that did, in role order, with its own results. */
  lemma ResultsFacts(s: AppState)
    ensures OwnerScores(s).Some? <==> s.answers.Of(Owner) != map[]
    ensures OwnerScores(s).Some? ==> OwnerScores(s).value == ScoresOf(s.answers.Of(Owner), Active(s), RoleScores(Owner))
    ensures forall r :: r in ClientBundles(s) <==> r != Owner && s.answers.Of(r) != map[]
    ensures |ClientDetails(s)| == |ClientBundles(s)|
    ensures forall i :: 0 <= i < |ClientDetails(s)| ==>
      var d := ClientDetails(s)[i];
      && d.role == ClientBundles(s)[i] && d.roleLabel == RoleLabel(d.role)
      && d.data == ScoresOf(s.answers.Of(d.role), Active(s), RoleScores(d.role))
  {
    assert forall r :: r in ClientRoles <==> r != Owner;
  }

  lemma {:induction false} PresentComplete<T>(xs: seq<Option<T>>)
    ensures forall i :: 0 <= i < |xs| && xs[i].Some? ==> xs[i].value in Present(xs)
  {
    if xs != [] {
      var init := xs[..|xs| - 1];
      PresentComplete(init);
      assert forall i :: 0 <= i < |init| ==> init[i] == xs[i];
    }
  }

  /** A client that answered a question of the pillar takes part in the average. */
  lemma AnsweredClientQualifies(answers: Answers, active: seq<Pillar>, key: Pillar, r: Role)
    requires key in active && r in ClientRoles && PillarEntry(answers.Of(r), key).score.Some?
    ensures ScoresOf(answers.Of(r), active, RoleScores(r)) in Qualifying(answers, active)
  {
    PillarEntryFacts(answers.Of(r), key);
    assert key in answers.Of(r);
    var xs := PerClient(answers, active, ClientRoles);
    PerClientMembers(answers, active, ClientRoles);
    PresentComplete(xs);
    var i :| 0 <= i < |ClientRoles| && ClientRoles[i] == r;
    assert xs[i] == Some(ScoresOf(answers.Of(r), active, RoleScores(r)));
  }

  /** The averaged cell of a pillar is defined iff some qualifying result has that cell. */
  lemma AverageCellIff(answers: Answers, active: seq<Pillar>, key: Pillar)
    requires key in active
    ensures var valid := Qualifying(answers, active);
      ScoreIn(AverageSpec(answers, active), PillarColumn(key)).Some? <==>
      exists i :: 0 <= i < |valid| && Cell(valid[i], PillarColumn(key)).Some?
  {
    var valid := Qualifying(answers, active);
    QualifyingShaped(answers, active);
    QualifyingMembers(answers, active);
    forall i | 0 <= i < |valid| && Cell(valid[i], PillarColumn(key)).Some?
      ensures 0.0 <= Cell(valid[i], PillarColumn(key)).value <= 4.0
    {
      assert valid[i] in valid;
      var r :| r in ClientRoles && valid[i] == ScoresOf(answers.Of(r), active, RoleScores(r));
      CellInRange(answers.Of(r), active, RoleScores(r), PillarColumn(key));
    }
    MeanOfFacts(valid, PillarColumn(key));
    if valid != [] {
      AvgPillarsEntries(valid, active);
    }
  }

  /** A client that answered one of the pillar's questions gives a qualifying result with that cell. */
  lemma AnsweredGivesCell(answers: Answers, active: seq<Pillar>, key: Pillar, r: Role)
    requires key in active && r in ClientRoles && PillarEntry(answers.Of(r), key).score.Some?
    ensures var valid := Qualifying(answers, active);
      exists i :: 0 <= i < |valid| && Cell(valid[i], PillarColumn(key)).Some?
  {
    var valid := Qualifying(answers, active);
    AnsweredClientQualifies(answers, active, key, r);
    var own := ScoresOf(answers.Of(r), active, RoleScores(r));
    ScoresShape(answers.Of(r), active, RoleScores(r));
    var i :| 0 <= i < |valid| && valid[i] == own;
    assert Cell(valid[i], PillarColumn(key)).Some?;
  }

  /** A qualifying result with a pillar's cell comes from a client that answered one of its questions. */
  lemma CellGivesAnswered(answers: Answers, active: seq<Pillar>, key: Pillar, i: nat)
    requires key in active
    requires var valid := Qualifying(answers, active);
      i < |valid| && Cell(valid[i], PillarColumn(key)).Some?
    ensures exists r :: r in ClientRoles && PillarEntry(answers.Of(r), key).score.Some?
  {
    var valid := Qualifying(answers, active);
    QualifyingMembers(answers, active);
    assert valid[i] in valid;
    var r :| r in ClientRoles && valid[i] == ScoresOf(answers.Of(r), active, RoleScores(r));
    ScoresShape(answers.Of(r), active, RoleScores(r));
  }

  /** Some qualifying result has a pillar's cell iff some client answered one of the pillar's questions. */
  lemma QualifyingCellIff(answers: Answers, active: seq<Pillar>, key: Pillar)
    requires key in active
    ensures var valid := Qualifying(answers, active);
      (exists i :: 0 <= i < |valid| && Cell(valid[i], PillarColumn(key)).Some?) <==>
      exists r :: r in ClientRoles && PillarEntry(answers.Of(r), key).score.Some?
  {
    var valid := Qualifying(answers, active);
    if exists r :: r in ClientRoles && PillarEntry(answers.Of(r), key).score.Some? {
      var r :| r in ClientRoles && PillarEntry(answers.Of(r), key).score.Some?;
      AnsweredGivesCell(answers, active, key, r);
    }
    if exists i :: 0 <= i < |valid| && Cell(valid[i], PillarColumn(key)).Some? {
      var i :| 0 <= i < |valid| && Cell(valid[i], PillarColumn(key)).Some?;
      CellGivesAnswered(answers, active, key, i);
    }
  }

  /** The clients' average of a selected pillar is defined iff some client answered one of its questions. */
  lemma PillarAverageIff(answers: Answers, active: seq<Pillar>, key: Pillar)
    requires key in active
    ensures ScoreIn(AverageSpec(answers, active), PillarColumn(key)).Some? <==>
      exists r :: r in ClientRoles && PillarEntry(answers.Of(r), key).score.Some?
  {
    AverageCellIff(answers, active, key);
    QualifyingCellIff(answers, active, key);
  }

  // ---------------------------------------------------------------------------------------
  // The screens

  /**
   * The summary shows the no-pillar card iff nothing is selected, nothing without a stage, and
   * otherwise the card of its stage; it dispatches only the move to the overall stage, when the
   * pillar stage has run past the last pillar.
   */
  lemma RouteCases(s: AppState)
    ensures Route(s).screen == NoPillars <==> s.pillars == {}
    ensures Route(s).screen == Blank <==> s.pillars != {} && s.summary.stage.None?
    ensures Route(s).screen.PillarCard? <==>
      s.pillars != {} && s.summary.stage == Some(PillarStage) && s.summary.pillarIndex < |Active(s)|
    ensures Route(s).screen.PillarGhiCard? <==>
      s.pillars != {} && s.summary.stage == Some(PillarGhiStage) && s.summary.pillarIndex < |Active(s)|
    ensures Route(s).screen.OverallCard? <==> s.pillars != {} && s.summary.stage == Some(OverallStage)
    ensures Route(s).screen.OverallGhiCard? <==> s.pillars != {} && s.summary.stage == Some(OverallGhiStage)
    ensures Route(s).screen.FinalCard? <==> s.pillars != {} && s.summary.stage == Some(FinalStage)
    ensures Route(s).dispatched.Some? <==> Route(s).screen == Redirecting
    ensures Route(s).dispatched.Some? ==> Route(s).dispatched == Some(SetSummaryStage(Some(OverallStage)))
  {
    ActiveCount(s.pillars);
    if s.pillars != {} {
      match s.summary.stage
      case None =>
      case Some(PillarStage) =>
      case Some(PillarGhiStage) =>
      case Some(OverallStage) =>
      case Some(OverallGhiStage) =>
      case Some(FinalStage) =>
    }
  }

  /** The two pillar stages show the card built for the pillar under the cursor. */
  lemma RoutePillarScreens(s: AppState)
    requires s.pillars != {} && s.summary.pillarIndex < |Active(s)|
    ensures s.summary.stage == Some(PillarStage) ==> Route(s) == Routed(PillarScreen(s, s.summary.pillarIndex), None)
    ensures s.summary.stage == Some(PillarGhiStage) ==> Route(s) == Routed(PillarGhiScreen(s, s.summary.pillarIndex), None)
  {
    ActiveCount(s.pillars);
  }

  /** The overall stages and the final stage show the card each builds. */
  lemma RouteOverallScreens(s: AppState)
    requires s.pillars != {}
    ensures s.summary.stage == Some(OverallStage) ==> Route(s) == Routed(OverallScreen(s), None)
    ensures s.summary.stage == Some(OverallGhiStage) ==> Route(s) == Routed(OverallGhiScreen(s), None)
    ensures s.summary.stage == Some(FinalStage) ==> Route(s) == Routed(FinalScreen(s), None) && FinalScreen(s).payload == FinalPayload(s)
  {
    var p :| p in s.pillars;
    assert p in Active(s);
    match s.summary.stage
    case Some(OverallStage) =>
    case Some(OverallGhiStage) =>
    case Some(FinalStage) =>
    case _ =>
  }

  /** The redirect settles: once the stage is overall, the overall card shows and nothing more is dispatched. */
  lemma RedirectSettles(s: AppState)
    requires Route(s).dispatched.Some?
    ensures var t := Reduce(s, Route(s).dispatched.value);
      Route(t).screen.OverallCard? && Route(t).dispatched.None?
  {
  }

  /**
   * A pillar card shows the selected pillar under the cursor, numbered from 1 out of the number
   * selected: the owner's score of that pillar when the owner has results, each client's score
   * when that client has results, the clients' average, and the gap between owner and average
   * with its reading. Back is offered except on the first pillar.
   */
  lemma PillarCardFacts(s: AppState, idx: nat)
    requires idx < |Active(s)|
    ensures var c := PillarScreen(s, idx);
      && c.key == Active(s)[idx] && c.key in s.pillars
      && c.number == idx + 1 && c.total == |s.pillars|
      && (c.backEnabled <==> idx > 0)
      && c.table.owner == (if OwnerDone(s) then PillarEntry(s.answers.Of(Owner), c.key).score else None)
      && |c.table.clients| == 3
      && (forall i :: 0 <= i < 3 ==>
            c.table.clients[i] == (if s.answers.Of(ClientRoles[i]) != map[] then PillarEntry(s.answers.Of(ClientRoles[i]), c.key).score else None))
      && c.table.average == ScoreIn(AverageSpec(s.answers, Active(s)), PillarColumn(c.key))
      && c.table.gap == Gap(c.table.owner, c.table.average) && c.table.tone == ToneOf(c.table.gap)
  {
    var c := PillarScreen(s, idx);
    var active := Active(s);
    ActiveCount(s.pillars);
    assert active[idx] in active;
    TableOwner(s, c.key);
    forall i | 0 <= i < 3
      ensures c.table.clients[i] == (if s.answers.Of(ClientRoles[i]) != map[] then PillarEntry(s.answers.Of(ClientRoles[i]), c.key).score else None)
    {
      TableClient(s, c.key, ClientRoles[i]);
    }
    ClientsAvgIsAverage(s);
  }

  /** A selected pillar's owner cell is the owner's own pillar score once the owner has results. */
  lemma TableOwner(s: AppState, key: Pillar)
    requires key in Active(s)
    ensures ScoreIn(OwnerScores(s), PillarColumn(key)) == if OwnerDone(s) then PillarEntry(s.answers.Of(Owner), key).score else None
  {
    ScoresShape(s.answers.Of(Owner), Active(s), RoleScores(Owner));
  }

  /** A selected pillar's cell for client `r` is that client's own pillar score once it has results. */
  lemma TableClient(s: AppState, key: Pillar, r: Role)
    requires key in Active(s)
    ensures DetailScore(s, r, key) == if r in ClientRoles && s.answers.Of(r) != map[] then PillarEntry(s.answers.Of(r), key).score else None
  {
    ScoresShape(s.answers.Of(r), Active(s), RoleScores(r));
  }

  /**
   * The pillar's gap is sized iff the owner answered one of its questions and some client did
   * too; otherwise the card reads that there are not enough answers.
   */
  lemma PillarGapIff(s: AppState, idx: nat)
    requires idx < |Active(s)|
    ensures var c := PillarScreen(s, idx);
      && (c.table.gap.Some? <==>
            PillarEntry(s.answers.Of(Owner), c.key).score.Some?
            && exists r :: r in ClientRoles && PillarEntry(s.answers.Of(r), c.key).score.Some?)
  {
    var c := PillarScreen(s, idx);
    PillarCardFacts(s, idx);
    PillarAverageIff(s.answers, Active(s), c.key);
    PillarEntryFacts(s.answers.Of(Owner), c.key);
    if PillarEntry(s.answers.Of(Owner), c.key).score.Some? {
      assert c.key in s.answers.Of(Owner);
    }
  }

  /**
   * The GHI lens of a pillar card is drawn iff both the owner and the clients have results, and
   * then holds one card per indicator touching the pillar.
   */
  lemma PillarGhiFacts(s: AppState, idx: nat)
    requires idx < |Active(s)|
    ensures var c := PillarGhiScreen(s, idx);
      && c.key == Active(s)[idx] && c.number == idx + 1
      && (c.lens.Some? <==> OwnerDone(s) && AverageSpec(s.answers, Active(s)).Some?)
      && (c.lens.Some? ==> c.lens.value == LensOf(s.answers, c.key, GiMap))
  {
    ClientsAvgIsAverage(s);
  }

  /**
   * The overall card has one row per selected pillar in canonical order, each with its gap, and
   * the global scores of owner and average with their gap and its reading.
   */
  lemma OverallCardFacts(s: AppState)
    ensures var c := OverallScreen(s);
      && |c.rows| == |Active(s)|
      && (forall i :: 0 <= i < |c.rows| ==>
            && c.rows[i].key == Active(s)[i]
            && c.rows[i].owner == (if OwnerDone(s) then PillarEntry(s.answers.Of(Owner), Active(s)[i]).score else None)
            && c.rows[i].clients == ScoreIn(AverageSpec(s.answers, Active(s)), PillarColumn(Active(s)[i]))
            && c.rows[i].gap == Gap(c.rows[i].owner, c.rows[i].clients))
      && c.globalOwner == (if OwnerDone(s) then ScoresOf(s.answers.Of(Owner), Active(s), RoleScores(Owner)).global else None)
      && c.globalClients == (if AverageSpec(s.answers, Active(s)).Some? then AverageSpec(s.answers, Active(s)).value.global else None)
      && c.globalGap == Gap(c.globalOwner, c.globalClients) && c.tone == ToneOf(c.globalGap)
  {
    ClientsAvgIsAverage(s);
    var active := Active(s);
    ScoresShape(s.answers.Of(Owner), active, RoleScores(Owner));
    forall i | 0 <= i < |active| ensures active[i] in active {
    }
  }

  /**
   * The overall GHI cards are drawn iff both sides have results, and then pair each indicator
   * of GI_MAP, by position, with the owner's score and the clients' average for that indicator.
   */
  lemma OverallGhiFacts(s: AppState)
    ensures var c := OverallGhiScreen(s);
      && (c.cards.Some? <==> OwnerDone(s) && AverageSpec(s.answers, Active(s)).Some?)
      && (c.cards.Some? ==>
            var owner := ScoresOf(s.answers.Of(Owner), Active(s), RoleScores(Owner));
            var average := AverageSpec(s.answers, Active(s)).value;
            && |c.cards.value| == |GiMap|
            && forall idx :: 0 <= idx < |GiMap| ==>
                 && c.cards.value[idx].name == GiMap[idx].name
                 && c.cards.value[idx].owner == owner.indicators[idx].score
                 && c.cards.value[idx].clients == average.indicators[idx].score
                 && c.cards.value[idx].gap == Gap(c.cards.value[idx].owner, c.cards.value[idx].clients))
  {
    ClientsAvgIsAverage(s);
    var active := Active(s);
    ScoresShape(s.answers.Of(Owner), active, RoleScores(Owner));
    AverageInRange(s.answers, active);
    forall idx | 0 <= idx < |GiMap| ensures ScoresOf(s.answers.Of(Owner), active, RoleScores(Owner)).indicators[idx].name == GiMap[idx].name {
      IndicatorFacts(s.answers.Of(Owner), active, RoleScores(Owner), idx);
    }
  }

  lemma {:induction false} DetailsMapEntries(details: seq<ClientDetail>)
    ensures forall o :: o in DetailsMap(details) <==> exists i :: 0 <= i < |details| && o == RoleScores(details[i].role)
    ensures forall o :: o in DetailsMap(details) ==>
      exists i :: 0 <= i < |details| && o == RoleScores(details[i].role) && DetailsMap(details)[o] == details[i].data
  {
    if details != [] {
      var init := details[..|details| - 1];
      DetailsMapEntries(init);
      assert forall i :: 0 <= i < |init| ==> init[i] == details[i];
    }
  }

  lemma {:induction false} DetailsMapRoleKeys(details: seq<ClientDetail>)
    ensures ClientsAverage !in DetailsMap(details)
  {
    if details != [] {
      DetailsMapRoleKeys(details[..|details| - 1]);
    }
  }

  lemma {:induction false} DetailsMapOmits(details: seq<ClientDetail>, r: Role)
    requires forall i :: 0 <= i < |details| ==> details[i].role != r
    ensures RoleScores(r) !in DetailsMap(details)
  {
    if details != [] {
      DetailsMapOmits(details[..|details| - 1], r);
    }
  }

  /**
   * The payload carries the owner's results iff the owner stored an entry and the clients'
   * average iff it is defined; `meta` records the respondent, the scope, the selected pillars in
   * order and the role sequence.
   */
  lemma FinalPayloadFacts(s: AppState)
    ensures var p := FinalPayload(s);
      && p.meta == Meta(s.initialWho, s.scope, Active(s), s.rolesSequence)
      && (RoleScores(Owner) in p.roles <==> OwnerDone(s))
      && (OwnerDone(s) ==> p.roles[RoleScores(Owner)] == ScoresOf(s.answers.Of(Owner), Active(s), RoleScores(Owner)))
      && (ClientsAverage in p.roles <==> AverageSpec(s.answers, Active(s)).Some?)
      && (ClientsAverage in p.roles ==> p.roles[ClientsAverage] == AverageSpec(s.answers, Active(s)).value)
  {
    ClientsAvgIsAverage(s);
    var details := ClientDetails(s);
    forall i | 0 <= i < |details| ensures details[i].role != Owner {
      assert ClientBundles(s)[i] in ClientBundles(s);
    }
    DetailsMapOmits(details, Owner);
    DetailsMapRoleKeys(details);
  }

  lemma {:induction false} DetailsMapAt(details: seq<ClientDetail>, r: Role)
    ensures RoleScores(r) in DetailsMap(details) <==> exists i :: 0 <= i < |details| && details[i].role == r
    ensures RoleScores(r) in DetailsMap(details) ==>
      exists i :: 0 <= i < |details| && details[i].role == r && DetailsMap(details)[RoleScores(r)] == details[i].data
  {
    if details != [] {
      var init := details[..|details| - 1];
      DetailsMapAt(init, r);
      assert forall i :: 0 <= i < |init| ==> init[i] == details[i];
    }
  }

  /** A client's key in the payload's map comes from the details alone. */
  lemma PayloadRolesAt(owner: Option<ScoresResult>, details: map<ScoreOwner, ScoresResult>, avg: Option<ScoresResult>, r: Role)
    requires r != Owner
    ensures var m := EntryOf(RoleScores(Owner), owner) + details + EntryOf(ClientsAverage, avg);
      && (RoleScores(r) in m <==> RoleScores(r) in details)
      && (RoleScores(r) in m ==> m[RoleScores(r)] == details[RoleScores(r)])
  {
  }

  /** The details list a client exactly when it stored an entry, with that client's own results. */
  lemma ClientDetailsAt(s: AppState, r: Role)
    requires r != Owner
    ensures var m := DetailsMap(ClientDetails(s));
      && (RoleScores(r) in m <==> s.answers.Of(r) != map[])
      && (RoleScores(r) in m ==> m[RoleScores(r)] == ScoresOf(s.answers.Of(r), Active(s), RoleScores(r)))
  {
    var details := ClientDetails(s);
    var bundles := ClientBundles(s);
    DetailsMapAt(details, r);
    assert r in ClientRoles;
    if s.answers.Of(r) != map[] {
      assert r in bundles;
      var i :| 0 <= i < |bundles| && bundles[i] == r;
      assert details[i].role == r;
    }
    if RoleScores(r) in DetailsMap(details) {
      var i :| 0 <= i < |details| && details[i].role == r && DetailsMap(details)[RoleScores(r)] == details[i].data;
      assert bundles[i] == r;
      assert bundles[i] in bundles;
    }
  }

  /** The payload carries a client's own results iff that client stored an entry. */
  lemma FinalPayloadClients(s: AppState, r: Role)
    requires r != Owner
    ensures var p := FinalPayload(s);
      && (RoleScores(r) in p.roles <==> s.answers.Of(r) != map[])
      && (RoleScores(r) in p.roles ==> p.roles[RoleScores(r)] == ScoresOf(s.answers.Of(r), Active(s), RoleScores(r)))
  {
    PayloadRolesAt(OwnerScores(s), DetailsMap(ClientDetails(s)), ClientsAvgScores(s), r);
    ClientDetailsAt(s, r);
  }

  // ---------------------------------------------------------------------------------------
  // Moving between the cards

  /** The GHI lens stage always points at a selected pillar. */
  predicate SummaryOk(s: AppState)
  {
    s.summary.stage == Some(PillarGhiStage) ==> s.summary.pillarIndex < |Active(s)|
  }

  /** The actions the summary's buttons dispatch: the pillar lens is only opened on a selected pillar. */
  predicate SummaryMove(s: AppState, b: Action)
  {
    || b == Restart || b == PrevPillarSummary || b == NextPillarSummary
    || (b.SetSummaryStage? && b.stage.Some? && b.stage.value != PillarGhiStage)
    || (b == SetSummaryStage(Some(PillarGhiStage)) && s.summary.pillarIndex < |Active(s)|)
  }

  /** Every enabled button of the summary dispatches a summary move, and under the invariant no undefined pillar is looked up. */
  lemma ButtonsAreMoves(s: AppState)
    ensures forall b :: b in Buttons(Route(s).screen) ==> SummaryMove(s, b)
    ensures SummaryOk(s) ==> Route(s).screen != UndefinedPillar
  {
    RouteCases(s);
  }

  /** Entering the summary establishes the invariant and every summary move keeps it. */
  lemma MovesKeepSummaryOk(s: AppState, b: Action)
    requires SummaryOk(s) && SummaryMove(s, b)
    ensures SummaryOk(Reduce(s, EnterSummary))
    ensures Defined(s, b) && SummaryOk(Reduce(s, b))
  {
    EnterSummaryFacts(s);
    if b == Restart {
      SummaryStageAndRestart(s, None);
      InitialStateOk();
    } else if b == PrevPillarSummary {
      PrevPillarSummaryFacts(s);
    } else if b == NextPillarSummary {
      NextPillarSummaryFacts(s);
    } else {
      SummaryStageAndRestart(s, b.stage);
    }
  }

  /**
   * From a pillar card, the GHI button shows the lens of the same pillar, and its back button
   * returns to the very same card; the next button leads to the overall card exactly from the
   * last pillar.
   */
  lemma PillarCardNavigation(s: AppState)
    requires Route(s).screen.PillarCard?
    ensures var c := Route(s).screen;
      var ghi := Reduce(s, SetSummaryStage(Some(PillarGhiStage)));
      && Route(ghi).screen.PillarGhiCard? && Route(ghi).screen.key == c.key && Route(ghi).screen.number == c.number
      && Route(Reduce(ghi, SetSummaryStage(Some(PillarStage)))) == Route(s)
      && (c.lastPillar <==> Route(Reduce(s, NextPillarSummary)).screen.OverallCard?)
  {
    GhiOfPillarCard(s);
    GhiBackToPillarCard(s);
    NextFromPillarCard(s);
  }

  /** The GHI button of a pillar card opens the lens of the same pillar, with the same number. */
  lemma GhiOfPillarCard(s: AppState)
    requires Route(s).screen.PillarCard?
    ensures var ghi := Reduce(s, SetSummaryStage(Some(PillarGhiStage)));
      && Route(ghi).screen.PillarGhiCard?
      && Route(ghi).screen.key == Route(s).screen.key && Route(ghi).screen.number == Route(s).screen.number
  {
    RouteCases(s);
    var ghi := Reduce(s, SetSummaryStage(Some(PillarGhiStage)));
    SummaryStageAndRestart(s, Some(PillarGhiStage));
    assert Active(ghi) == Active(s);
    RoutePillarScreens(s);
    RoutePillarScreens(ghi);
  }

  /** Going back from the lens restores the very state the pillar card was shown in. */
  lemma GhiBackToPillarCard(s: AppState)
    requires Route(s).screen.PillarCard?
    ensures Reduce(Reduce(s, SetSummaryStage(Some(PillarGhiStage))), SetSummaryStage(Some(PillarStage))) == s
  {
    RouteCases(s);
    var ghi := Reduce(s, SetSummaryStage(Some(PillarGhiStage)));
    SummaryStageAndRestart(s, Some(PillarGhiStage));
    SummaryStageAndRestart(ghi, Some(PillarStage));
  }

  /** The next button of a pillar card leads to the overall card exactly from the last pillar. */
  lemma NextFromPillarCard(s: AppState)
    requires Route(s).screen.PillarCard?
    ensures Route(s).screen.lastPillar <==> Route(Reduce(s, NextPillarSummary)).screen.OverallCard?
  {
    RouteCases(s);
    RoutePillarScreens(s);
    NextPillarSummaryFacts(s);
    RouteCases(Reduce(s, NextPillarSummary));
  }
}
