/**
 * averageClientScores of lib/utils.ts: the clients' results are averaged column by column
 * (each pillar score, each indicator score, the global score), counting only the non-null
 * values, over the client roles that answered at least one active pillar.
 */
module Aggregation {

  import opened Wrappers
  import opened QpsData
  import opened Scoring

  const ClientRoles: seq<Role> := [Client1, Client2, Client3]

  /** `activePillars.some(k => !!bundle[k])`: some active pillar has an entry in the bundle. */
  predicate HasActiveEntry(bundle: Bundle, active: seq<Pillar>)
  {
    exists k :: k in active && k in bundle
  }

  /** One element of `perClient`: the role's scores, or null when it answered no active pillar. */
  function ClientResult(answers: Answers, active: seq<Pillar>, r: Role): Option<ScoresResult>
  {
    var bundle := answers.Of(r);
    if HasActiveEntry(bundle, active) then Some(ScoresOf(bundle, active, RoleScores(r))) else None
  }

  /** `perClient` over a list of roles. */
  function PerClient(answers: Answers, active: seq<Pillar>, roles: seq<Role>): (r: seq<Option<ScoresResult>>)
    ensures |r| == |roles|
  {
    if roles == [] then []
    else PerClient(answers, active, roles[..|roles| - 1]) + [ClientResult(answers, active, roles[|roles| - 1])]
  }

  /** The non-null elements of a list, in order. */
  function Present<T>(xs: seq<Option<T>>): (r: seq<T>)
    ensures |r| <= |xs|
  {
    if xs == [] then []
    else Present(xs[..|xs| - 1]) + (if xs[|xs| - 1].Some? then [xs[|xs| - 1].value] else [])
  }

  /** `valid`: the results of the clients that answered at least one active pillar, in role order. */
  function Qualifying(answers: Answers, active: seq<Pillar>): seq<ScoresResult>
  {
    Present(PerClient(answers, active, ClientRoles))
  }

  /** A column of the results that is averaged across clients. */
  datatype Column = PillarColumn(key: Pillar) | IndicatorColumn(idx: nat) | GlobalColumn

  /** One result's value in a column (null where the column is absent). */
  function Cell(r: ScoresResult, c: Column): Option<real>
  {
    match c
    case PillarColumn(key) => if key in r.pillars then r.pillars[key].score else None
    case IndicatorColumn(idx) => if idx < |r.indicators| then r.indicators[idx].score else None
    case GlobalColumn => r.global
  }

  /** The running `sum` and `count` of the non-null values of a column. */
  function SumCount(valid: seq<ScoresResult>, c: Column): (real, nat)
  {
    if valid == [] then (0.0, 0)
    else
      var sc := SumCount(valid[..|valid| - 1], c);
      match Cell(valid[|valid| - 1], c)
      case None => sc
      case Some(s) => (sc.0 + s, sc.1 + 1)
  }

  /** `count ? sum / count : null` */
  function MeanOf(valid: seq<ScoresResult>, c: Column): Option<real>
  {
    var sc := SumCount(valid, c);
    if sc.1 > 0 then Some(sc.0 / sc.1 as real) else None
  }

  /** A result that carries every active pillar and one indicator per GI_MAP entry. */
  predicate Shaped(r: ScoresResult, active: seq<Pillar>)
  {
    (forall k :: k in active ==> k in r.pillars) && |r.indicators| == |GiMap|
  }

  predicate AllShaped(valid: seq<ScoresResult>, active: seq<Pillar>)
  {
    forall i :: 0 <= i < |valid| ==> Shaped(valid[i], active)
  }

  /** `avgPillars`: the first client's summary of each pillar, with the averaged score. */
  function AvgPillars(valid: seq<ScoresResult>, active: seq<Pillar>): map<Pillar, PillarSummary>
    requires valid != [] && forall k :: k in active ==> k in valid[0].pillars
  {
    if active == [] then map[]
    else
      var key := active[|active| - 1];
      AvgPillars(valid, active[..|active| - 1])[key := valid[0].pillars[key].(score := MeanOf(valid, PillarColumn(key)))]
  }

  /** One entry of `avgIndicators`. */
  function AvgIndicator(valid: seq<ScoresResult>, name: string, idx: nat): IndicatorResult
  {
    var score := MeanOf(valid, IndicatorColumn(idx));
    IndicatorResult(name, score, Grade(score, Unknown))
  }

  function AvgIndicators(valid: seq<ScoresResult>, inds: seq<Indicator>): seq<IndicatorResult>
  {
    seq(|inds|, idx requires 0 <= idx < |inds| => AvgIndicator(valid, inds[idx].name, idx))
  }

  /** The specification of averageClientScores. */
  function AverageSpec(answers: Answers, active: seq<Pillar>): Option<ScoresResult>
  {
    var valid := Qualifying(answers, active);
    QualifyingShaped(answers, active);
    if valid == [] then None
    else Some(ScoresResult(ClientsAverage, active, AvgPillars(valid, active), AvgIndicators(valid, GiMap),
                           MeanOf(valid, GlobalColumn)))
  }

  // ---------------------------------------------------------------------------------------
  // Facts the definitions rest on

  lemma {:induction false} PresentMembers<T>(xs: seq<Option<T>>)
    ensures forall y :: y in Present(xs) ==> Some(y) in xs
    ensures Present(xs) == [] <==> forall i :: 0 <= i < |xs| ==> xs[i].None?
  {
    if xs != [] {
      PresentMembers(xs[..|xs| - 1]);
      assert xs == xs[..|xs| - 1] + [xs[|xs| - 1]];
    }
  }

  lemma {:induction false} PerClientMembers(answers: Answers, active: seq<Pillar>, roles: seq<Role>)
    ensures forall i :: 0 <= i < |roles| ==> PerClient(answers, active, roles)[i] == ClientResult(answers, active, roles[i])
  {
    if roles != [] {
      PerClientMembers(answers, active, roles[..|roles| - 1]);
    }
  }

  /** Every qualifying result is the scores of a client role that answered an active pillar. */
  lemma QualifyingMembers(answers: Answers, active: seq<Pillar>)
    ensures forall y :: y in Qualifying(answers, active) ==>
      exists r :: r in ClientRoles && HasActiveEntry(answers.Of(r), active) && y == ScoresOf(answers.Of(r), active, RoleScores(r))
  {
    var xs := PerClient(answers, active, ClientRoles);
    PresentMembers(xs);
    PerClientMembers(answers, active, ClientRoles);
    forall y | y in Qualifying(answers, active)
      ensures exists r :: r in ClientRoles && HasActiveEntry(answers.Of(r), active) && y == ScoresOf(answers.Of(r), active, RoleScores(r))
    {
      var i :| 0 <= i < |xs| && xs[i] == Some(y);
      assert ClientRoles[i] in ClientRoles;
    }
  }

  lemma QualifyingShaped(answers: Answers, active: seq<Pillar>)
    ensures AllShaped(Qualifying(answers, active), active)
  {
    var valid := Qualifying(answers, active);
    QualifyingMembers(answers, active);
    forall i | 0 <= i < |valid| ensures Shaped(valid[i], active) {
      assert valid[i] in valid;
      var r :| r in ClientRoles && valid[i] == ScoresOf(answers.Of(r), active, RoleScores(r));
      ScoresShape(answers.Of(r), active, RoleScores(r));
    }
  }

  /** The averaged pillars are keyed by exactly the active pillars, each the first client's summary with a new score. */
  lemma {:induction false} AvgPillarsEntries(valid: seq<ScoresResult>, active: seq<Pillar>)
    requires valid != [] && forall k :: k in active ==> k in valid[0].pillars
    ensures forall k :: k in AvgPillars(valid, active) <==> k in active
    ensures forall k :: k in active ==>
      AvgPillars(valid, active)[k] == valid[0].pillars[k].(score := MeanOf(valid, PillarColumn(k)))
  {
    if active != [] {
      AvgPillarsEntries(valid, active[..|active| - 1]);
      assert active == active[..|active| - 1] + [active[|active| - 1]];
    }
  }

  // ---------------------------------------------------------------------------------------
  // The algorithm

  /** `activePillars.some(k => !!bundle[k])` */
  method AnyActiveEntry(bundle: Bundle, active: seq<Pillar>) returns (found: bool)
    ensures found == HasActiveEntry(bundle, active)
  {
    found := false;
    var i := 0;
    while i < |active| && !found
      invariant 0 <= i <= |active|
      invariant found <==> exists k :: k in active[..i] && k in bundle
    {
      assert active[..i + 1] == active[..i] + [active[i]];
      found := active[i] in bundle;
      i := i + 1;
    }
    if found {
      assert forall k :: k in active[..i] ==> k in active;
    } else {
      assert active[..i] == active;
    }
  }

  /** The `sum`/`count` loop over `valid` for one column. */
  method MeanColumn(valid: seq<ScoresResult>, c: Column) returns (score: Option<real>)
    ensures score == MeanOf(valid, c)
  {
    var sum, count := 0.0, 0;
    for i := 0 to |valid|
      invariant (sum, count) == SumCount(valid[..i], c)
    {
      assert valid[..i + 1][..i] == valid[..i];
      var s := Cell(valid[i], c);
      if s.Some? {
        sum, count := sum + s.value, count + 1;
      }
    }
    assert valid[..|valid|] == valid;
    score := if count > 0 then Some(sum / count as real) else None;
  }

  /** The `perClient` map over the client roles. */
  method ScoreClients(answers: Answers, active: seq<Pillar>, roles: seq<Role>) returns (perClient: seq<Option<ScoresResult>>)
    ensures perClient == PerClient(answers, active, roles)
  {
    perClient := [];
    for i := 0 to |roles|
      invariant perClient == PerClient(answers, active, roles[..i])
    {
      assert roles[..i + 1][..i] == roles[..i];
      var bundle := answers.Of(roles[i]);
      var hasAnswer := AnyActiveEntry(bundle, active);
      var entry: Option<ScoresResult> := None;
      if hasAnswer {
        var scores := ComputeScoresForAnswers(bundle, active, RoleScores(roles[i]));
        entry := Some(scores);
      }
      perClient := perClient + [entry];
    }
    assert roles[..|roles|] == roles;
  }

  /** `perClient.filter(x => x !== null)` */
  method DropNulls(perClient: seq<Option<ScoresResult>>) returns (valid: seq<ScoresResult>)
    ensures valid == Present(perClient)
  {
    valid := [];
    for i := 0 to |perClient|
      invariant valid == Present(perClient[..i])
    {
      assert perClient[..i + 1][..i] == perClient[..i];
      if perClient[i].Some? {
        valid := valid + [perClient[i].value];
      }
    }
    assert perClient[..|perClient|] == perClient;
  }

  /** The `activePillars.forEach` loop building `avgPillars`. */
  method AveragePillars(valid: seq<ScoresResult>, active: seq<Pillar>) returns (avgPillars: map<Pillar, PillarSummary>)
    requires valid != [] && forall k :: k in active ==> k in valid[0].pillars
    ensures avgPillars == AvgPillars(valid, active)
  {
    avgPillars := map[];
    for i := 0 to |active|
      invariant avgPillars == AvgPillars(valid, active[..i])
    {
      assert active[..i + 1][..i] == active[..i];
      var key := active[i];
      var score := MeanColumn(valid, PillarColumn(key));
      avgPillars := avgPillars[key := valid[0].pillars[key].(score := score)];
    }
    assert active[..|active|] == active;
  }

  /** The `GI_MAP.map` building `avgIndicators`. */
  method AverageIndicators(valid: seq<ScoresResult>, inds: seq<Indicator>) returns (avgIndicators: seq<IndicatorResult>)
    ensures avgIndicators == AvgIndicators(valid, inds)
  {
    avgIndicators := [];
    for idx := 0 to |inds|
      invariant avgIndicators == AvgIndicators(valid, inds)[..idx]
    {
      var score := MeanColumn(valid, IndicatorColumn(idx));
      avgIndicators := avgIndicators + [IndicatorResult(inds[idx].name, score, Grade(score, Unknown))];
    }
  }

  /** averageClientScores */
  method AverageClientScores(answers: Answers, active: seq<Pillar>) returns (r: Option<ScoresResult>)
    ensures r == AverageSpec(answers, active)
  {
    var perClient := ScoreClients(answers, active, ClientRoles);
    var valid := DropNulls(perClient);
    if |valid| == 0 {
      return None;
    }
    QualifyingShaped(answers, active);
    assert Shaped(valid[0], active);
    var avgPillars := AveragePillars(valid, active);
    var avgIndicators := AverageIndicators(valid, GiMap);
    var globalScore := MeanColumn(valid, GlobalColumn);
    r := Some(ScoresResult(ClientsAverage, active, avgPillars, avgIndicators, globalScore));
  }

  // ---------------------------------------------------------------------------------------
  // Properties

  /** The running totals: the count is the number of non-null cells and the sum lies within their bounds. */
  lemma {:induction false} SumCountZero(valid: seq<ScoresResult>, c: Column)
    ensures SumCount(valid, c).1 == 0 <==> forall i :: 0 <= i < |valid| ==> Cell(valid[i], c).None?
  {
    if valid != [] {
      var init := valid[..|valid| - 1];
      SumCountZero(init, c);
      assert forall i :: 0 <= i < |init| ==> init[i] == valid[i];
    }
  }

  lemma {:induction false} SumCountBounds(valid: seq<ScoresResult>, c: Column)
    requires forall i :: 0 <= i < |valid| && Cell(valid[i], c).Some? ==> 0.0 <= Cell(valid[i], c).value <= 4.0
    ensures 0.0 <= SumCount(valid, c).0 <= 4.0 * SumCount(valid, c).1 as real
  {
    if valid != [] {
      var init := valid[..|valid| - 1];
      assert forall i :: 0 <= i < |init| ==> init[i] == valid[i];
      SumCountBounds(init, c);
    }
  }

  /** A column average is null iff every client's cell is null, and otherwise lies in [0, 4] like the cells. */
  lemma MeanOfFacts(valid: seq<ScoresResult>, c: Column)
    requires forall i :: 0 <= i < |valid| && Cell(valid[i], c).Some? ==> 0.0 <= Cell(valid[i], c).value <= 4.0
    ensures MeanOf(valid, c).None? <==> forall i :: 0 <= i < |valid| ==> Cell(valid[i], c).None?
    ensures MeanOf(valid, c).Some? ==> 0.0 <= MeanOf(valid, c).value <= 4.0
  {
    SumCountZero(valid, c);
    SumCountBounds(valid, c);
    var sc := SumCount(valid, c);
    if sc.1 > 0 {
      DivideBounds(sc.0, sc.1 as real, 0.0, 4.0);
    }
  }

  /** The average is null iff no client role answered any active pillar. */
  lemma AverageNullIff(answers: Answers, active: seq<Pillar>)
    ensures AverageSpec(answers, active).None? <==> forall r :: r in ClientRoles ==> !HasActiveEntry(answers.Of(r), active)
  {
    var xs := PerClient(answers, active, ClientRoles);
    PresentMembers(xs);
    PerClientMembers(answers, active, ClientRoles);
    assert forall r :: r in ClientRoles <==> r == ClientRoles[0] || r == ClientRoles[1] || r == ClientRoles[2];
  }

  /** The owner's answers play no part in the clients' average. */
  lemma OwnerIgnored(answers: Answers, active: seq<Pillar>, b: Bundle)
    ensures AverageSpec(answers.With(Owner, b), active) == AverageSpec(answers, active)
  {
    var other := answers.With(Owner, b);
    assert forall r :: r in ClientRoles ==> other.Of(r) == answers.Of(r);
    assert PerClient(other, active, ClientRoles) == PerClient(answers, active, ClientRoles) by {
      PerClientMembers(other, active, ClientRoles);
      PerClientMembers(answers, active, ClientRoles);
    }
  }

  /** A one-element column averages to its own cell. */
  lemma MeanOfSingle(r: ScoresResult, c: Column)
    ensures MeanOf([r], c) == Cell(r, c)
  {
    assert [r][..|[r]| - 1] == [];
    match Cell(r, c)
    case None =>
      assert SumCount([r], c) == (0.0, 0);
    case Some(v) =>
      assert SumCount([r], c) == (0.0 + v, 1);
  }

  lemma PresentSnoc<T>(xs: seq<Option<T>>, x: Option<T>)
    ensures Present(xs + [x]) == Present(xs) + (if x.Some? then [x.value] else [])
  {
    assert (xs + [x])[..|xs|] == xs;
  }

  /** The non-null elements of a three-element list whose last element is null. */
  lemma PresentPair<T>(x1: Option<T>, x2: Option<T>, x3: Option<T>)
    requires x1.Some? && x2.Some? && x3.None?
    ensures Present([x1, x2, x3]) == [x1.value, x2.value]
  {
    PresentSnoc([], x1);
    PresentSnoc([x1], x2);
    assert [x1] + [x2] == [x1, x2];
    PresentSnoc([x1, x2], x3);
    assert [x1, x2] + [x3] == [x1, x2, x3];
  }

  /** The qualifying results, role by role. */
  lemma QualifyingByRole(answers: Answers, active: seq<Pillar>)
    ensures Qualifying(answers, active) ==
      Present([ClientResult(answers, active, Client1), ClientResult(answers, active, Client2), ClientResult(answers, active, Client3)])
  {
    var x1, x2, x3 := ClientResult(answers, active, Client1), ClientResult(answers, active, Client2), ClientResult(answers, active, Client3);
    assert ClientRoles[..2][..1] == [Client1] && ClientRoles[..2] == [Client1, Client2] && ClientRoles[..3] == ClientRoles;
    assert PerClient(answers, active, [Client1]) == [x1];
    assert PerClient(answers, active, [Client1, Client2]) == [x1, x2];
    assert PerClient(answers, active, ClientRoles) == [x1, x2, x3];
    PresentSnoc([], x1);
    PresentSnoc([x1], x2);
    assert [x1] + [x2] == [x1, x2];
    PresentSnoc([x1, x2], x3);
    assert [x1, x2] + [x3] == [x1, x2, x3];
  }

  /** Averaging a single result reproduces its pillars, indicators and global score. */
  lemma AverageOfOne(own: ScoresResult, active: seq<Pillar>, inds: seq<Indicator>)
    requires forall k :: k in own.pillars <==> k in active
    requires |own.indicators| == |inds|
    requires forall idx :: 0 <= idx < |inds| ==>
      own.indicators[idx].name == inds[idx].name && own.indicators[idx].level == Grade(own.indicators[idx].score, Unknown)
    ensures AvgPillars([own], active) == own.pillars
    ensures AvgIndicators([own], inds) == own.indicators
    ensures MeanOf([own], GlobalColumn) == own.global
  {
    AvgPillarsEntries([own], active);
    forall k | k in active ensures AvgPillars([own], active)[k] == own.pillars[k] {
      MeanOfSingle(own, PillarColumn(k));
    }
    forall idx | 0 <= idx < |inds| ensures AvgIndicators([own], inds)[idx] == own.indicators[idx] {
      MeanOfSingle(own, IndicatorColumn(idx));
    }
    MeanOfSingle(own, GlobalColumn);
  }

  /** The results of the client roles, when exactly one of them qualifies. */
  /** Dropping the nulls of a list with a single non-null element leaves that element alone. */
  lemma {:induction false} PresentSingle<T>(xs: seq<Option<T>>, i: nat)
    requires i < |xs| && xs[i].Some?
    requires forall j :: 0 <= j < |xs| && j != i ==> xs[j].None?
    ensures Present(xs) == [xs[i].value]
  {
    var init := xs[..|xs| - 1];
    if i == |xs| - 1 {
      PresentNone(init);
    } else {
      PresentSingle(init, i);
    }
  }

  lemma {:induction false} PresentNone<T>(xs: seq<Option<T>>)
    requires forall j :: 0 <= j < |xs| ==> xs[j].None?
    ensures Present(xs) == []
  {
    if xs != [] {
      PresentNone(xs[..|xs| - 1]);
    }
  }

  lemma QualifyingSingle(answers: Answers, active: seq<Pillar>, c: Role)
    requires c in ClientRoles && HasActiveEntry(answers.Of(c), active)
    requires forall r :: r in ClientRoles && r != c ==> !HasActiveEntry(answers.Of(r), active)
    ensures Qualifying(answers, active) == [ScoresOf(answers.Of(c), active, RoleScores(c))]
  {
    QualifyingByRole(answers, active);
    var xs := [ClientResult(answers, active, Client1), ClientResult(answers, active, Client2), ClientResult(answers, active, Client3)];
    var i := if c == Client1 then 0 else if c == Client2 then 1 else 2;
    assert xs[i] == ClientResult(answers, active, c);
    PresentSingle(xs, i);
  }

  /** With exactly one qualifying client, the average is that client's own result, relabelled as the average. */
  lemma SingleClientIdentity(answers: Answers, active: seq<Pillar>, c: Role)
    requires c in ClientRoles && HasActiveEntry(answers.Of(c), active)
    requires forall r :: r in ClientRoles && r != c ==> !HasActiveEntry(answers.Of(r), active)
    ensures AverageSpec(answers, active) == Some(ScoresOf(answers.Of(c), active, RoleScores(c)).(role := ClientsAverage))
  {
    var own := ScoresOf(answers.Of(c), active, RoleScores(c));
    QualifyingSingle(answers, active, c);
    ScoresShape(answers.Of(c), active, RoleScores(c));
    AverageOfOne(own, active, GiMap);
  }

  /** Every averaged score (pillar, indicator, global) lies in [0, 4]. */
  lemma AverageInRange(answers: Answers, active: seq<Pillar>)
    ensures var a := AverageSpec(answers, active);
      a.Some? ==>
        && (forall k :: k in active ==> k in a.value.pillars && (a.value.pillars[k].score.Some? ==> 0.0 <= a.value.pillars[k].score.value <= 4.0))
        && |a.value.indicators| == |GiMap|
        && (forall idx :: 0 <= idx < |GiMap| && a.value.indicators[idx].score.Some? ==> 0.0 <= a.value.indicators[idx].score.value <= 4.0)
        && (a.value.global.Some? ==> 0.0 <= a.value.global.value <= 4.0)
  {
    var valid := Qualifying(answers, active);
    if valid != [] {
      QualifyingShaped(answers, active);
      QualifyingMembers(answers, active);
      forall i, c | 0 <= i < |valid| && Cell(valid[i], c).Some?
        ensures 0.0 <= Cell(valid[i], c).value <= 4.0
      {
        assert valid[i] in valid;
        var r :| r in ClientRoles && valid[i] == ScoresOf(answers.Of(r), active, RoleScores(r));
        CellInRange(answers.Of(r), active, RoleScores(r), c);
      }
      AvgPillarsEntries(valid, active);
      forall k | k in active ensures MeanOf(valid, PillarColumn(k)).Some? ==> 0.0 <= MeanOf(valid, PillarColumn(k)).value <= 4.0 {
        MeanOfFacts(valid, PillarColumn(k));
      }
      forall idx | 0 <= idx < |GiMap| ensures MeanOf(valid, IndicatorColumn(idx)).Some? ==> 0.0 <= MeanOf(valid, IndicatorColumn(idx)).value <= 4.0 {
        MeanOfFacts(valid, IndicatorColumn(idx));
      }
      MeanOfFacts(valid, GlobalColumn);
    }
  }

  /** Every cell of one role's result lies in [0, 4]. */
  lemma CellInRange(bundle: Bundle, active: seq<Pillar>, who: ScoreOwner, c: Column)
    ensures var v := Cell(ScoresOf(bundle, active, who), c); v.Some? ==> 0.0 <= v.value <= 4.0
  {
    match c
    case PillarColumn(key) =>
      ScoresShape(bundle, active, who);
      PillarEntryFacts(bundle, key);
    case IndicatorColumn(idx) =>
      if idx < |GiMap| {
        IndicatorFacts(bundle, active, who, idx);
      }
    case GlobalColumn =>
      GlobalScoreFacts(bundle, active, who);
  }

  /** Two clients scoring 4.00 and 0.00 on a pillar average 2.00, under the first client's label. */
  lemma TwoClientPillarAverage(first: ScoresResult, second: ScoresResult, k: Pillar)
    requires k in first.pillars && k in second.pillars
    requires first.pillars[k].score == Some(4.0) && second.pillars[k].score == Some(0.0)
    ensures AvgPillars([first, second], [k])[k] == first.pillars[k].(score := Some(2.0))
  {
    var valid := [first, second];
    assert valid[..1] == [first] && [first][..0] == [];
    assert SumCount([first], PillarColumn(k)) == (4.0, 1);
    assert SumCount(valid, PillarColumn(k)) == (4.0, 2);
    assert [k][..0] == [];
  }

  /** An averaged pillar is the first qualifying client's summary carrying the column average. */
  lemma AveragedPillar(answers: Answers, active: seq<Pillar>, k: Pillar)
    requires k in active && Qualifying(answers, active) != []
    ensures var a := AverageSpec(answers, active);
      var valid := Qualifying(answers, active);
      && a.Some? && k in a.value.pillars && k in valid[0].pillars
      && a.value.pillars[k] == valid[0].pillars[k].(score := MeanOf(valid, PillarColumn(k)))
  {
    QualifyingShaped(answers, active);
    AvgPillarsEntries(Qualifying(answers, active), active);
  }

  /** Every Presence question of the bundle is answered with `x`. */
  predicate AllPresenceAnswered(bundle: Bundle, x: Answer)
  {
    Presence in bundle && forall k :: 0 <= k < 5 ==> QuestionIds(Presence)[k] in bundle[Presence] && bundle[Presence][QuestionIds(Presence)[k]] == x
  }

  lemma SplitClientsQualify(answers: Answers)
    requires Presence in answers.client1 && Presence in answers.client2 && Presence !in answers.client3
    ensures Qualifying(answers, [Presence]) ==
      [ScoresOf(answers.client1, [Presence], RoleScores(Client1)), ScoresOf(answers.client2, [Presence], RoleScores(Client2))]
  {
    var active := [Presence];
    assert Presence in active && Presence in answers.Of(Client1) && Presence in answers.Of(Client2);
    QualifyingByRole(answers, active);
    var x1, x2, x3 := ClientResult(answers, active, Client1), ClientResult(answers, active, Client2), ClientResult(answers, active, Client3);
    assert x3.None?;
    PresentPair(x1, x2, x3);
  }

  /** Five equal answers to the Presence questions average to that answer's score. */
  lemma PresenceEntryScore(bundle: Bundle, x: Answer)
    requires AllPresenceAnswered(bundle, x)
    ensures PillarEntry(bundle, Presence).score == Some(AnswerScore(x) as real)
  {
    var s := AnswerScore(x);
    FivePresenceScores(bundle[Presence], [s, s, s, s, s]);
    assert Sum([s, s, s, s, s]) as real / 5.0 == s as real;
  }

  lemma PresenceScoreOf(bundle: Bundle, who: ScoreOwner, x: Answer)
    requires AllPresenceAnswered(bundle, x)
    ensures var r := ScoresOf(bundle, [Presence], who);
      && Presence in r.pillars
      && r.pillars[Presence].score == Some(AnswerScore(x) as real)
  {
    PresenceEntryScore(bundle, x);
    ScoresShape(bundle, [Presence], who);
  }

  /**
   * The averaged pillar keeps the first qualifying client's label (and answered count), so the
   * label need not match the averaged score: when client 1 answers every Presence question yes
   * and client 2 every one no, the average is 2.00, which grades Underpowered, yet the label
   * stays Strong.
   */
  lemma AveragedLabelKeepsFirstClient(answers: Answers)
    requires AllPresenceAnswered(answers.client1, Yes) && AllPresenceAnswered(answers.client2, No)
    requires Presence !in answers.client3
    ensures var a := AverageSpec(answers, [Presence]);
      && a.Some? && Presence in a.value.pillars
      && a.value.pillars[Presence].score == Some(2.0)
      && a.value.pillars[Presence].pillarLabel == Strong
      && Grade(a.value.pillars[Presence].score, Incomplete) == Underpowered
  {
    var first := ScoresOf(answers.client1, [Presence], RoleScores(Client1));
    var second := ScoresOf(answers.client2, [Presence], RoleScores(Client2));
    SplitClientsQualify(answers);
    PresenceScoreOf(answers.client1, RoleScores(Client1), Yes);
    PresenceScoreOf(answers.client2, RoleScores(Client2), No);
    assert first.pillars[Presence].pillarLabel == Strong;
    AveragedPillar(answers, [Presence], Presence);
    TwoClientPillarAverage(first, second, Presence);
  }
}
