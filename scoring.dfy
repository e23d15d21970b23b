/**
 * The scoring engine of lib/utils.ts: the answer ledger types, the canonical listing of the
 * selected pillars, and computeScoresForAnswers, which turns one role's answers into pillar
 * scores, indicator scores and a weighted global score.
 *
 * The engine's loops are methods proved equal to specification functions (ScoresOf and the
 * functions it is built from); the properties the engine promises are lemmas about those functions.
 */
module Scoring {

  import opened Wrappers
  import opened QpsData

  /** One pillar's answers of one role, by question id. */
  type QuestionAnswers = map<string, Answer>

  /** One role's answers, by pillar; a missing pillar key means "nothing answered yet". */
  type Bundle = map<Pillar, QuestionAnswers>

  /** The answers record: one bundle per role. */
  datatype Answers = Answers(owner: Bundle, client1: Bundle, client2: Bundle, client3: Bundle)
  {
    function Of(r: Role): Bundle
    {
      match r
      case Owner => owner
      case Client1 => client1
      case Client2 => client2
      case Client3 => client3
    }

    function With(r: Role, b: Bundle): (a: Answers)
      ensures a.Of(r) == b
      ensures forall r' :: r' != r ==> a.Of(r') == Of(r')
    {
      match r
      case Owner => this.(owner := b)
      case Client1 => this.(client1 := b)
      case Client2 => this.(client2 := b)
      case Client3 => this.(client3 := b)
    }
  }

  const NoAnswers: Answers := Answers(map[], map[], map[], map[])

  /** Which phrasing of a question a role reads. */
  datatype Perspective = YouPhrasing | ClientPhrasing

  /** mapRoleToPerspective: the owner reads the first-person phrasing, every client the other. */
  function MapRoleToPerspective(r: Role): (v: Perspective)
    ensures v == YouPhrasing <==> r == Owner
  {
    if r == Owner then YouPhrasing else ClientPhrasing
  }

  predicate CanonicallyOrdered(ps: seq<Pillar>)
  {
    forall i, j :: 0 <= i < j < |ps| ==> CanonicalIndex(ps[i]) < CanonicalIndex(ps[j])
  }

  /** The members of `ps` that are selected, in the order of `ps`. */
  function SelectIn(ps: seq<Pillar>, selected: set<Pillar>): (r: seq<Pillar>)
    requires CanonicallyOrdered(ps)
    ensures forall p :: p in r <==> p in ps && p in selected
    ensures CanonicallyOrdered(r)
  {
    if ps == [] then []
    else
      var rest := SelectIn(ps[1..], selected);
      assert forall k :: 0 <= k < |rest| ==> rest[k] in ps[1..];
      if ps[0] in selected then [ps[0]] + rest else rest
  }

  /** getActivePillarsInOrder: the selected pillars, in canonical order, each once. */
  function ActivePillars(selected: set<Pillar>): (r: seq<Pillar>)
    ensures forall p :: p in r <==> p in selected
    ensures CanonicallyOrdered(r) && NoDuplicates(r)
  {
    assert forall i :: 0 <= i < |OrderedPillars| ==> CanonicalIndex(OrderedPillars[i]) == i;
    OrderedPillarsListEveryPillarOnce();
    SelectIn(OrderedPillars, selected)
  }

  lemma {:induction false} DistinctCount(xs: seq<Pillar>)
    requires NoDuplicates(xs)
    ensures |set p | p in xs| == |xs|
  {
    if xs != [] {
      var init := xs[..|xs| - 1];
      DistinctCount(init);
      assert (set p | p in xs) == (set p | p in init) + {xs[|xs| - 1]};
    }
  }

  /** The active list has exactly as many entries as the selection has members. */
  lemma ActiveCount(selected: set<Pillar>)
    ensures |ActivePillars(selected)| == |selected|
  {
    var r := ActivePillars(selected);
    DistinctCount(r);
    assert (set p | p in r) == selected;
  }

  lemma {:induction false} SubsetCount(a: set<Pillar>, b: set<Pillar>)
    requires a <= b
    ensures |a| <= |b|
    decreases |b|
  {
    if a != {} {
      var x :| x in a;
      SubsetCount(a - {x}, b - {x});
    }
  }

  /** A selection of five pillars is the whole set of pillars. */
  lemma FiveSelectedIsAll(selected: set<Pillar>)
    ensures |selected| == 5 <==> selected == AllPillars
  {
    forall p | p in selected ensures p in AllPillars {
      assert p.Presence? || p.Digital? || p.Space? || p.Narrative? || p.Signature?;
    }
    if |selected| == 5 {
      assert |AllPillars| == 5;
      if selected != AllPillars {
        var p :| p in AllPillars && p !in selected;
        assert selected <= AllPillars - {p};
        assert |AllPillars - {p}| == 4;
        SubsetCount(selected, AllPillars - {p});
      }
    } else {
      assert |AllPillars| == 5;
    }
  }

  // ---------------------------------------------------------------------------------------
  // Results

  datatype Level = Strong | Steady | Underpowered | Incomplete | Unknown

  /** The `meta.role` of a result: a role, or the average of the clients. */
  datatype ScoreOwner = RoleScores(role: Role) | ClientsAverage

  /** One pillar's summary (`label` is `pillarLabel`); the note text is fixed by the label and is not modelled. */
  datatype PillarSummary = PillarSummary(
    key: Pillar, name: string, tag: string, score: Option<real>, pillarLabel: Level,
    answered: nat, questionsTotal: nat)

  /** One indicator's result; the description is prose and is not modelled. */
  datatype IndicatorResult = IndicatorResult(name: string, score: Option<real>, level: Level)

  datatype ScoresResult = ScoresResult(
    role: ScoreOwner, pillarsActive: seq<Pillar>, pillars: map<Pillar, PillarSummary>,
    indicators: seq<IndicatorResult>, global: Option<real>)

  /** The three-tier grading of pillars and indicators; `missing` is the grade of no score. */
  function Grade(score: Option<real>, missing: Level): (l: Level)
    requires missing == Incomplete || missing == Unknown
    ensures l == missing <==> score.None?
    ensures l == Strong <==> score.Some? && score.value >= 3.2
    ensures l == Steady <==> score.Some? && 2.2 <= score.value < 3.2
    ensures l == Underpowered <==> score.Some? && score.value < 2.2
  {
    match score
    case None => missing
    case Some(s) => if s >= 3.2 then Strong else if s >= 2.2 then Steady else Underpowered
  }

  // ---------------------------------------------------------------------------------------
  // Arithmetic on score lists

  function Sum(xs: seq<int>): int
  {
    if xs == [] then 0 else Sum(xs[..|xs| - 1]) + xs[|xs| - 1]
  }

  /** The mean of a list of answer scores; null for the empty list. */
  function Mean(xs: seq<int>): (m: Option<real>)
    ensures m.None? <==> xs == []
  {
    if xs == [] then None else Some(Sum(xs) as real / |xs| as real)
  }

  lemma SumSnoc(xs: seq<int>, x: int)
    ensures Sum(xs + [x]) == Sum(xs) + x
  {
    assert (xs + [x])[..|xs|] == xs;
  }

  lemma {:induction false} SumBounds(xs: seq<int>, lo: int, hi: int)
    requires forall k :: 0 <= k < |xs| ==> lo <= xs[k] <= hi
    ensures lo * |xs| <= Sum(xs) <= hi * |xs|
  {
    if xs != [] {
      SumBounds(xs[..|xs| - 1], lo, hi);
    }
  }

  lemma DivideBounds(t: real, n: real, lo: real, hi: real)
    requires n > 0.0 && lo * n <= t <= hi * n
    ensures lo <= t / n <= hi
  {
    assert t / n * n == t;
  }

  /** A mean of values in [lo, hi] lies in [lo, hi]. */
  lemma MeanBounds(xs: seq<int>, lo: int, hi: int)
    requires forall k :: 0 <= k < |xs| ==> lo <= xs[k] <= hi
    ensures Mean(xs).Some? ==> lo as real <= Mean(xs).value <= hi as real
  {
    if xs != [] {
      SumBounds(xs, lo, hi);
      DivideBounds(Sum(xs) as real, |xs| as real, lo as real, hi as real);
    }
  }

  // ---------------------------------------------------------------------------------------
  // Pillar scores (computeScoresForAnswers, lines 85-125)

  /** `answersBundle[key] || {}` */
  function Given(bundle: Bundle, p: Pillar): QuestionAnswers
  {
    if p in bundle then bundle[p] else map[]
  }

  /** The scores of the answered ids among `ids`, in the order of `ids`. */
  function AnsweredScores(ids: seq<string>, given: QuestionAnswers): (r: seq<int>)
    ensures |r| <= |ids|
    ensures forall k :: 0 <= k < |r| ==> 0 <= r[k] <= 4
  {
    if ids == [] then []
    else
      var last := ids[|ids| - 1];
      AnsweredScores(ids[..|ids| - 1], given) + (if last in given then [AnswerScore(given[last])] else [])
  }

  lemma AnsweredScoresSnoc(ids: seq<string>, i: nat, given: QuestionAnswers)
    requires i < |ids|
    ensures AnsweredScores(ids[..i + 1], given)
         == AnsweredScores(ids[..i], given) + (if ids[i] in given then [AnswerScore(given[ids[i]])] else [])
  {
    assert ids[..i + 1][..i] == ids[..i];
  }

  function PillarEntry(bundle: Bundle, p: Pillar): PillarSummary
  {
    var scores := AnsweredScores(QuestionIds(p), Given(bundle, p));
    var score := Mean(scores);
    PillarSummary(p, PillarName(p), PillarTag(p), score, Grade(score, Incomplete), |scores|, |QuestionIds(p)|)
  }

  /** The `pillarsSummary` dictionary after its entries for `active` are filled in. */
  function PillarsOf(bundle: Bundle, active: seq<Pillar>): (m: map<Pillar, PillarSummary>)
  {
    if active == [] then map[]
    else
      var key := active[|active| - 1];
      PillarsOf(bundle, active[..|active| - 1])[key := PillarEntry(bundle, key)]
  }

  /** The dictionary has exactly the active keys, each holding that pillar's own summary. */
  lemma {:induction false} PillarsOfEntries(bundle: Bundle, active: seq<Pillar>)
    ensures forall p :: p in PillarsOf(bundle, active) <==> p in active
    ensures forall p :: p in active ==> PillarsOf(bundle, active)[p] == PillarEntry(bundle, p)
  {
    if active != [] {
      var init := active[..|active| - 1];
      var last := active[|active| - 1];
      PillarsOfEntries(bundle, init);
      assert active == init + [last];
      forall p ensures p in active <==> p in init || p == last {
      }
    }
  }

  // ---------------------------------------------------------------------------------------
  // Global score (lines 127-137)

  /** Weighted total and total weight of the non-null pillar scores over `active`. */
  datatype Totals = Totals(total: real, weight: real)

  function WeightedTotals(pillars: map<Pillar, PillarSummary>, active: seq<Pillar>): (tw: Totals)
    requires forall p :: p in active ==> p in pillars
  {
    if active == [] then Totals(0.0, 0.0)
    else
      var tw := WeightedTotals(pillars, active[..|active| - 1]);
      var key := active[|active| - 1];
      match pillars[key].score
      case None => tw
      case Some(s) => Totals(tw.total + s * PillarWeight(key), tw.weight + PillarWeight(key))
  }

  function GlobalFrom(pillars: map<Pillar, PillarSummary>, active: seq<Pillar>): Option<real>
    requires forall p :: p in active ==> p in pillars
  {
    var tw := WeightedTotals(pillars, active);
    if tw.weight > 0.0 then Some(tw.total / tw.weight) else None
  }

  // ---------------------------------------------------------------------------------------
  // Indicators (lines 139-169)

  /** The first active pillar whose question list holds `qid`. */
  function Resolve(active: seq<Pillar>, qid: string): (r: Option<Pillar>)
    ensures r.Some? ==> r.value in active && qid in QuestionIds(r.value)
    ensures r.None? <==> forall p :: p in active ==> qid !in QuestionIds(p)
  {
    if active == [] then None
    else if qid in QuestionIds(active[0]) then Some(active[0])
    else Resolve(active[1..], qid)
  }

  /** The value an id contributes: the score of the resolved pillar's answer, if there is one. */
  function ResolvedScore(bundle: Bundle, active: seq<Pillar>, qid: string): seq<int>
  {
    match Resolve(active, qid)
    case None => []
    case Some(p) => if qid in Given(bundle, p) then [AnswerScore(Given(bundle, p)[qid])] else []
  }

  /** The `values` list of one indicator. */
  function IndicatorValues(bundle: Bundle, active: seq<Pillar>, ids: seq<string>): (r: seq<int>)
    ensures |r| <= |ids|
    ensures forall k :: 0 <= k < |r| ==> 0 <= r[k] <= 4
  {
    if ids == [] then []
    else IndicatorValues(bundle, active, ids[..|ids| - 1]) + ResolvedScore(bundle, active, ids[|ids| - 1])
  }

  function IndicatorEntry(bundle: Bundle, active: seq<Pillar>, ind: Indicator): IndicatorResult
  {
    var score := Mean(IndicatorValues(bundle, active, ind.ids));
    IndicatorResult(ind.name, score, Grade(score, Unknown))
  }

  /** One result per indicator of `inds`, in order (applied to GI_MAP by ScoresOf). */
  function IndicatorsOf(bundle: Bundle, active: seq<Pillar>, inds: seq<Indicator>): seq<IndicatorResult>
  {
    seq(|inds|, k requires 0 <= k < |inds| => IndicatorEntry(bundle, active, inds[k]))
  }

  /** What computeScoresForAnswers returns for one role's bundle. */
  function ScoresOf(bundle: Bundle, active: seq<Pillar>, who: ScoreOwner): ScoresResult
  {
    var pillars := PillarsOf(bundle, active);
    PillarsOfEntries(bundle, active);
    ScoresResult(who, active, pillars, IndicatorsOf(bundle, active, GiMap), GlobalFrom(pillars, active))
  }

  // ---------------------------------------------------------------------------------------
  // The imperative engine

  /** The per-pillar `total` / `count` loop over the pillar's own questions. */
  method TallyPillar(ids: seq<string>, given: QuestionAnswers) returns (total: int, count: nat)
    ensures total == Sum(AnsweredScores(ids, given))
    ensures count == |AnsweredScores(ids, given)|
  {
    total, count := 0, 0;
    var i := 0;
    while i < |ids|
      invariant 0 <= i <= |ids|
      invariant total == Sum(AnsweredScores(ids[..i], given))
      invariant count == |AnsweredScores(ids[..i], given)|
    {
      AnsweredScoresSnoc(ids, i, given);
      ghost var done := AnsweredScores(ids[..i], given);
      var id := ids[i];
      if id in given {
        SumSnoc(done, AnswerScore(given[id]));
        total := total + AnswerScore(given[id]);
        count := count + 1;
        assert AnsweredScores(ids[..i + 1], given) == done + [AnswerScore(given[id])];
      } else {
        assert AnsweredScores(ids[..i + 1], given) == done;
      }
      i := i + 1;
    }
    assert ids[..|ids|] == ids;
  }

  /** The inner loop over the active pillars: the first one owning `qid` decides, and its answer is kept if there is one. */
  method ResolveOne(bundle: Bundle, active: seq<Pillar>, qid: string) returns (v: seq<int>)
    ensures v == ResolvedScore(bundle, active, qid)
  {
    v := [];
    var j := 0;
    while j < |active|
      invariant 0 <= j <= |active|
      invariant Resolve(active, qid) == Resolve(active[j..], qid)
      invariant v == []
    {
      var pKey := active[j];
      if qid in QuestionIds(pKey) {
        assert Resolve(active, qid) == Some(pKey);
        var given := Given(bundle, pKey);
        if qid in given {
          v := [AnswerScore(given[qid])];
        }
        return;
      }
      assert active[j..][1..] == active[j + 1..];
      j := j + 1;
    }
  }

  /** The `values` of one indicator: each id resolved to the first active pillar owning it. */
  method ResolvedValues(bundle: Bundle, active: seq<Pillar>, ids: seq<string>) returns (values: seq<int>)
    ensures values == IndicatorValues(bundle, active, ids)
  {
    values := [];
    var n := 0;
    while n < |ids|
      invariant 0 <= n <= |ids|
      invariant values == IndicatorValues(bundle, active, ids[..n])
    {
      var v := ResolveOne(bundle, active, ids[n]);
      assert ids[..n + 1][..n] == ids[..n];
      values := values + v;
      n := n + 1;
    }
    assert ids[..|ids|] == ids;
  }

  /** The body of the first loop: tally one pillar and grade it. */
  method SummarisePillar(bundle: Bundle, key: Pillar) returns (entry: PillarSummary)
    ensures entry == PillarEntry(bundle, key)
  {
    var total, count := TallyPillar(QuestionIds(key), Given(bundle, key));
    var score := if count > 0 then Some(total as real / count as real) else None;
    entry := PillarSummary(key, PillarName(key), PillarTag(key), score, Grade(score, Incomplete), count, |QuestionIds(key)|);
  }

  /** One step of the first loop: adding the next pillar's summary extends the dictionary by that pillar. */
  lemma PillarsOfSnoc(bundle: Bundle, active: seq<Pillar>, i: nat, m: map<Pillar, PillarSummary>, entry: PillarSummary)
    requires i < |active| && m == PillarsOf(bundle, active[..i]) && entry == PillarEntry(bundle, active[i])
    ensures m[active[i] := entry] == PillarsOf(bundle, active[..i + 1])
  {
    assert active[..i + 1][..i] == active[..i];
  }

  /** The first loop of computeScoresForAnswers: one summary per active pillar. */
  method SummarisePillars(bundle: Bundle, active: seq<Pillar>) returns (pillarsSummary: map<Pillar, PillarSummary>)
    ensures pillarsSummary == PillarsOf(bundle, active)
  {
    pillarsSummary := map[];
    assert active[..0] == [];
    for i := 0 to |active|
      invariant pillarsSummary == PillarsOf(bundle, active[..i])
    {
      var key := active[i];
      var entry := SummarisePillar(bundle, key);
      PillarsOfSnoc(bundle, active, i, pillarsSummary, entry);
      pillarsSummary := pillarsSummary[key := entry];
    }
    assert active[..|active|] == active;
  }

  /** The `globalTotal` / `globalWeight` loop over the summaries of the active pillars. */
  method WeightedGlobal(pillarsSummary: map<Pillar, PillarSummary>, active: seq<Pillar>) returns (globalScore: Option<real>)
    requires forall p :: p in active ==> p in pillarsSummary
    ensures globalScore == GlobalFrom(pillarsSummary, active)
  {
    var globalTotal, globalWeight := 0.0, 0.0;
    var i := 0;
    while i < |active|
      invariant 0 <= i <= |active|
      invariant Totals(globalTotal, globalWeight) == WeightedTotals(pillarsSummary, active[..i])
    {
      var key := active[i];
      assert active[..i + 1][..i] == active[..i];
      var s := pillarsSummary[key].score;
      if s.Some? {
        var w := PillarWeight(key);
        globalTotal := globalTotal + s.value * w;
        globalWeight := globalWeight + w;
      }
      i := i + 1;
    }
    assert active[..|active|] == active;
    globalScore := if globalWeight > 0.0 then Some(globalTotal / globalWeight) else None;
  }

  /** The body of `GI_MAP.map`: collect one indicator's values and grade their mean. */
  method ScoreIndicator(bundle: Bundle, active: seq<Pillar>, ind: Indicator) returns (entry: IndicatorResult)
    ensures entry == IndicatorEntry(bundle, active, ind)
  {
    var values := ResolvedValues(bundle, active, ind.ids);
    var score := if |values| > 0 then Some(Sum(values) as real / |values| as real) else None;
    entry := IndicatorResult(ind.name, score, Grade(score, Unknown));
  }

  /** `GI_MAP.map(...)`: one indicator result per GI_MAP entry. */
  method ScoreIndicators(bundle: Bundle, active: seq<Pillar>, inds: seq<Indicator>) returns (indicators: seq<IndicatorResult>)
    ensures indicators == IndicatorsOf(bundle, active, inds)
  {
    indicators := [];
    var k := 0;
    while k < |inds|
      invariant 0 <= k <= |inds|
      invariant |indicators| == k
      invariant forall j :: 0 <= j < k ==> indicators[j] == IndicatorEntry(bundle, active, inds[j])
    {
      var entry := ScoreIndicator(bundle, active, inds[k]);
      indicators := indicators + [entry];
      k := k + 1;
    }
  }

  /** computeScoresForAnswers: the result is ScoresOf of the same inputs. */
  method ComputeScoresForAnswers(bundle: Bundle, active: seq<Pillar>, who: ScoreOwner)
    returns (r: ScoresResult)
    ensures r == ScoresOf(bundle, active, who)
  {
    var pillarsSummary := SummarisePillars(bundle, active);
    PillarsOfEntries(bundle, active);
    var globalScore := WeightedGlobal(pillarsSummary, active);
    var indicators := ScoreIndicators(bundle, active, GiMap);
    r := ScoresResult(who, active, pillarsSummary, indicators, globalScore);
  }

  // ---------------------------------------------------------------------------------------
  // Properties of the engine's specification

  /** Answers stored under ids outside `ids` never reach the tally. */
  lemma {:induction false} AnsweredScoresIgnoreForeign(ids: seq<string>, given: QuestionAnswers, qid: string, a: Answer)
    requires qid !in ids
    ensures AnsweredScores(ids, given[qid := a]) == AnsweredScores(ids, given)
  {
    if ids != [] {
      AnsweredScoresIgnoreForeign(ids[..|ids| - 1], given, qid, a);
    }
  }

  /** The answered ids of `init + [last]`: those of `init`, and `last` when it is answered. */
  lemma AnsweredIdsSnoc(init: seq<string>, last: string, given: QuestionAnswers)
    ensures (set id | id in init + [last] && id in given) ==
      (set id | id in init && id in given) + (if last in given then {last} else {})
  {
  }

  /** With distinct ids, the tally counts exactly the ids that have an answer. */
  lemma {:induction false} AnsweredCount(ids: seq<string>, given: QuestionAnswers)
    requires NoDuplicates(ids)
    ensures |AnsweredScores(ids, given)| == |set id | id in ids && id in given|
  {
    if ids != [] {
      var init, last := ids[..|ids| - 1], ids[|ids| - 1];
      assert NoDuplicates(init) by {
        forall i, j | 0 <= i < j < |init| ensures init[i] != init[j] {
          assert init[i] == ids[i] && init[j] == ids[j];
        }
      }
      AnsweredCount(init, given);
      assert ids == init + [last];
      AnsweredIdsSnoc(init, last, given);
      assert last !in init by {
        forall i | 0 <= i < |init| ensures init[i] != last {
          assert init[i] == ids[i] && last == ids[|ids| - 1];
        }
      }
    }
  }

  /** The tally is empty exactly when none of the ids has an answer. */
  lemma {:induction false} AnsweredNone(ids: seq<string>, given: QuestionAnswers)
    ensures AnsweredScores(ids, given) == [] <==> forall id :: id in ids ==> id !in given
  {
    if ids != [] {
      var init, last := ids[..|ids| - 1], ids[|ids| - 1];
      AnsweredNone(init, given);
      assert ids == init + [last];
    }
  }

  /**
   * A pillar summary counts only the pillar's own answered ids (at most its five questions);
   * its score is null exactly when nothing is answered and otherwise lies in [0, 4].
   */
  lemma PillarEntryFacts(bundle: Bundle, p: Pillar)
    ensures var e := PillarEntry(bundle, p);
      && e.key == p
      && e.questionsTotal == QuestionsPerPillar
      && e.answered == |set id | id in QuestionIds(p) && id in Given(bundle, p)|
      && e.answered <= e.questionsTotal
      && (e.score.None? <==> e.answered == 0)
      && (e.score.Some? ==> 0.0 <= e.score.value <= 4.0)
      && (e.pillarLabel == Incomplete <==> e.answered == 0)
  {
    var ids := QuestionIds(p);
    forall i, j | 0 <= i < j < |ids| ensures ids[i] != ids[j] {
      QuestionIdsDistinct(p, i, p, j);
    }
    AnsweredCount(ids, Given(bundle, p));
    AnsweredNone(ids, Given(bundle, p));
    MeanBounds(AnsweredScores(ids, Given(bundle, p)), 0, 4);
  }

  /** Storing an answer under an id of another pillar leaves this pillar's summary unchanged. */
  lemma ForeignIdIgnored(bundle: Bundle, p: Pillar, qid: string, a: Answer)
    requires qid !in QuestionIds(p)
    ensures PillarEntry(bundle[p := Given(bundle, p)[qid := a]], p) == PillarEntry(bundle, p)
  {
    AnsweredScoresIgnoreForeign(QuestionIds(p), Given(bundle, p), qid, a);
  }

  /** The weighted totals: the weight is positive iff some pillar scored, and the total is bounded. */
  lemma WeightedTotalsSnoc(pillars: map<Pillar, PillarSummary>, active: seq<Pillar>)
    requires active != [] && forall p :: p in active ==> p in pillars
    ensures var init, key := active[..|active| - 1], active[|active| - 1];
      var tw := WeightedTotals(pillars, init);
      WeightedTotals(pillars, active) ==
        if pillars[key].score.Some? then Totals(tw.total + pillars[key].score.value * PillarWeight(key), tw.weight + PillarWeight(key)) else tw
  {
  }

  /** Adding a score in [lo, hi] with a positive weight keeps the weighted total within [lo, hi] times the weight. */
  lemma WeightedStep(total: real, weight: real, s: real, w: real, lo: real, hi: real, total': real, weight': real)
    requires lo * weight <= total <= hi * weight
    requires lo <= s <= hi && w > 0.0
    requires total' == total + s * w && weight' == weight + w
    ensures lo * weight' <= total' <= hi * weight'
  {
    assert lo * w <= s * w <= hi * w;
    assert lo * weight' == lo * weight + lo * w;
    assert hi * weight' == hi * weight + hi * w;
  }

  /** The total weight is never negative, and positive exactly when some active pillar scored. */
  lemma {:induction false} WeightedTotalsFacts(pillars: map<Pillar, PillarSummary>, active: seq<Pillar>)
    requires forall p :: p in active ==> p in pillars
    ensures var tw := WeightedTotals(pillars, active);
      && tw.weight >= 0.0
      && (tw.weight > 0.0 <==> exists p :: p in active && pillars[p].score.Some?)
  {
    if active != [] {
      var init, key := active[..|active| - 1], active[|active| - 1];
      WeightedTotalsFacts(pillars, init);
      assert forall p :: p in active <==> p in init || p == key by {
        assert active == init + [key];
      }
      WeightedTotalsSnoc(pillars, active);
    }
  }

  /** The weighted total lies between lo and hi times the total weight. */
  predicate WithinBounds(tw: Totals, lo: real, hi: real)
  {
    lo * tw.weight <= tw.total <= hi * tw.weight
  }

  /** One step of the weighted totals keeps the total within [lo, hi] times the weight. */
  lemma WeightedBoundsStep(pillars: map<Pillar, PillarSummary>, init: seq<Pillar>, key: Pillar, lo: real, hi: real, tw: Totals, r: Totals)
    requires forall p :: p in init ==> p in pillars
    requires key in pillars
    requires pillars[key].score.Some? ==> lo <= pillars[key].score.value <= hi
    requires tw == WeightedTotals(pillars, init) && r == WeightedTotals(pillars, init + [key])
    requires WithinBounds(tw, lo, hi)
    ensures WithinBounds(r, lo, hi)
  {
    assert (init + [key])[..|init|] == init;
    if pillars[key].score.Some? {
      var s, w := pillars[key].score.value, PillarWeight(key);
      assert r.total == tw.total + s * w && r.weight == tw.weight + w;
      WeightedStep(tw.total, tw.weight, s, w, lo, hi, r.total, r.weight);
    } else {
      assert r == tw;
    }
  }

  /** With every contributing score in [lo, hi], the weighted total lies between lo and hi times the total weight. */
  lemma {:induction false} WeightedTotalsBounds(pillars: map<Pillar, PillarSummary>, active: seq<Pillar>, lo: real, hi: real)
    requires forall p :: p in active ==> p in pillars
    requires forall p :: p in active && pillars[p].score.Some? ==> lo <= pillars[p].score.value <= hi
    ensures WithinBounds(WeightedTotals(pillars, active), lo, hi)
  {
    var r := WeightedTotals(pillars, active);
    if active == [] {
      assert r == Totals(0.0, 0.0);
      assert lo * 0.0 == 0.0 && hi * 0.0 == 0.0;
    } else {
      var init := active[..|active| - 1];
      assert forall p :: p in init ==> p in active;
      WeightedTotalsBounds(pillars, init, lo, hi);
      assert active == init + [active[|active| - 1]];
      WeightedBoundsStep(pillars, init, active[|active| - 1], lo, hi, WeightedTotals(pillars, init), r);
    }
  }

  /**
   * The global score over a map of summaries lies between any bounds of the scores that
   * contribute to it: it is a weighted mean of them.
   */
  lemma GlobalFromBetween(pillars: map<Pillar, PillarSummary>, active: seq<Pillar>, lo: real, hi: real)
    requires forall p :: p in active ==> p in pillars
    requires forall p :: p in active && pillars[p].score.Some? ==> lo <= pillars[p].score.value <= hi
    ensures var g := GlobalFrom(pillars, active);
      g.Some? ==> lo <= g.value <= hi
  {
    WeightedTotalsBounds(pillars, active, lo, hi);
    var tw := WeightedTotals(pillars, active);
    assert WithinBounds(tw, lo, hi);
    if tw.weight > 0.0 {
      DivideBounds(tw.total, tw.weight, lo, hi);
    }
  }

  /** The global score over a map of summaries in [0, 4]: null iff no pillar scored, else in [0, 4]. */
  lemma GlobalFromFacts(pillars: map<Pillar, PillarSummary>, active: seq<Pillar>)
    requires forall p :: p in active ==> p in pillars
    requires forall p :: p in active && pillars[p].score.Some? ==> 0.0 <= pillars[p].score.value <= 4.0
    ensures var g := GlobalFrom(pillars, active);
      && (g.None? <==> forall p :: p in active ==> pillars[p].score.None?)
      && (g.Some? ==> 0.0 <= g.value <= 4.0)
  {
    WeightedTotalsFacts(pillars, active);
    GlobalFromBetween(pillars, active, 0.0, 4.0);
  }

  /**
   * The global score is the weighted mean of the non-null pillar scores: null iff every active
   * pillar score is null, and otherwise in [0, 4].
   */
  lemma GlobalScoreFacts(bundle: Bundle, active: seq<Pillar>, who: ScoreOwner)
    ensures var g := ScoresOf(bundle, active, who).global;
      && (g.None? <==> forall p :: p in active ==> PillarEntry(bundle, p).score.None?)
      && (g.Some? ==> 0.0 <= g.value <= 4.0)
  {
    var pillars := PillarsOf(bundle, active);
    PillarsOfEntries(bundle, active);
    forall p | p in active
      ensures PillarEntry(bundle, p).score.Some? ==> 0.0 <= PillarEntry(bundle, p).score.value <= 4.0
    {
      PillarEntryFacts(bundle, p);
    }
    GlobalFromFacts(pillars, active);
    assert ScoresOf(bundle, active, who).global == GlobalFrom(pillars, active);
  }

  /**
   * The global score lies between the least and the greatest of the pillar scores that
   * contribute to it: any bounds of the non-null pillar scores bound it too.
   */
  lemma GlobalBetween(bundle: Bundle, active: seq<Pillar>, who: ScoreOwner, lo: real, hi: real)
    requires forall p :: p in active && PillarEntry(bundle, p).score.Some? ==> lo <= PillarEntry(bundle, p).score.value <= hi
    ensures var g := ScoresOf(bundle, active, who).global;
      g.Some? ==> lo <= g.value <= hi
  {
    var pillars := PillarsOf(bundle, active);
    PillarsOfEntries(bundle, active);
    GlobalFromBetween(pillars, active, lo, hi);
    assert ScoresOf(bundle, active, who).global == GlobalFrom(pillars, active);
  }


  /** Because ids are unique, resolution picks the owning pillar whenever it is active. */
  lemma ResolveByOwnership(active: seq<Pillar>, qid: string, p: Pillar)
    ensures Resolve(active, qid) == Some(p) <==> p in active && qid in QuestionIds(p)
  {
    var r := Resolve(active, qid);
    if r.Some? {
      OwnerOfIsOwner(qid, r.value);
      OwnerOfIsOwner(qid, p);
    }
  }

  /** The id has no answer in the pillar it resolves to (or resolves to no active pillar). */
  predicate NoResolvedAnswer(bundle: Bundle, active: seq<Pillar>, qid: string)
  {
    Resolve(active, qid).None? || qid !in Given(bundle, Resolve(active, qid).value)
  }

  /** An indicator has no values iff none of its ids has an answer in its resolved pillar. */
  lemma {:induction false} IndicatorValuesEmpty(bundle: Bundle, active: seq<Pillar>, ids: seq<string>)
    ensures IndicatorValues(bundle, active, ids) == [] <==> forall qid :: qid in ids ==> NoResolvedAnswer(bundle, active, qid)
  {
    if ids != [] {
      var init, last := ids[..|ids| - 1], ids[|ids| - 1];
      IndicatorValuesEmpty(bundle, active, init);
      assert ids == init + [last];
      assert ResolvedScore(bundle, active, last) == [] <==> NoResolvedAnswer(bundle, active, last);
      assert (forall qid :: qid in ids ==> NoResolvedAnswer(bundle, active, qid)) <==>
        (forall qid :: qid in init ==> NoResolvedAnswer(bundle, active, qid)) && NoResolvedAnswer(bundle, active, last);
    }
  }

  /**
   * The result has one indicator per GI_MAP entry, in order; an indicator score is null
   * (level Unknown) iff no referenced id has an answer in its resolved pillar, else in [0, 4].
   */
  lemma IndicatorFacts(bundle: Bundle, active: seq<Pillar>, who: ScoreOwner, k: nat)
    requires k < |GiMap|
    ensures var r := ScoresOf(bundle, active, who);
      && |r.indicators| == |GiMap|
      && r.indicators[k].name == GiMap[k].name
      && (r.indicators[k].score.None? <==>
          forall qid :: qid in GiMap[k].ids ==> NoResolvedAnswer(bundle, active, qid))
      && (r.indicators[k].level == Unknown <==> r.indicators[k].score.None?)
      && (r.indicators[k].score.Some? ==> 0.0 <= r.indicators[k].score.value <= 4.0)
  {
    var values := IndicatorValues(bundle, active, GiMap[k].ids);
    IndicatorValuesEmpty(bundle, active, GiMap[k].ids);
    MeanBounds(values, 0, 4);
  }

  /** The result lists exactly the active pillars, each with its own summary, under the given role. */
  lemma ScoresShape(bundle: Bundle, active: seq<Pillar>, who: ScoreOwner)
    ensures var r := ScoresOf(bundle, active, who);
      && r.role == who && r.pillarsActive == active
      && (forall p :: p in r.pillars <==> p in active)
      && (forall p :: p in active ==> r.pillars[p] == PillarEntry(bundle, p))
      && |r.indicators| == |GiMap|
  {
    PillarsOfEntries(bundle, active);
  }

  /** Five yes answers in one pillar score 4.00, Strong. */
  lemma AllYesIsStrong()
    ensures var b := map[Presence := map["P1" := Yes, "P2" := Yes, "P3" := Yes, "P4" := Yes, "P5" := Yes]];
      PillarEntry(b, Presence).score == Some(4.0) && PillarEntry(b, Presence).pillarLabel == Strong
  {
    var given := map["P1" := Yes, "P2" := Yes, "P3" := Yes, "P4" := Yes, "P5" := Yes];
    FivePresenceScores(given, [4, 4, 4, 4, 4]);
  }

  /** Three yes and two no answers score (4+4+4+0+0)/5 = 2.40, Steady. */
  lemma ThreeYesTwoNoIsSteady()
    ensures var b := map[Presence := map["P1" := Yes, "P2" := Yes, "P3" := Yes, "P4" := No, "P5" := No]];
      PillarEntry(b, Presence).score == Some(2.4) && PillarEntry(b, Presence).pillarLabel == Steady
  {
    var given := map["P1" := Yes, "P2" := Yes, "P3" := Yes, "P4" := No, "P5" := No];
    FivePresenceScores(given, [4, 4, 4, 0, 0]);
  }

  /** When every id is answered, the tally lists their scores in id order. */
  lemma {:induction false} AllAnsweredScores(ids: seq<string>, given: QuestionAnswers, expected: seq<int>)
    requires |expected| == |ids|
    requires forall k :: 0 <= k < |ids| ==> ids[k] in given && AnswerScore(given[ids[k]]) == expected[k]
    ensures AnsweredScores(ids, given) == expected
  {
    if ids != [] {
      var n := |ids| - 1;
      AllAnsweredScores(ids[..n], given, expected[..n]);
      assert expected == expected[..n] + [expected[n]];
    }
  }

  /** The sum of five scores, written out. */
  lemma SumOfFive(xs: seq<int>)
    requires |xs| == 5
    ensures Sum(xs) == xs[0] + xs[1] + xs[2] + xs[3] + xs[4]
  {
    assert xs[..4][..3] == xs[..3] && xs[..3][..2] == xs[..2];
    assert xs[..2][..1] == xs[..1] && xs[..1][..0] == [] && xs[..5] == xs;
    assert Sum(xs[..1]) == xs[0];
    assert Sum(xs[..2]) == xs[0] + xs[1];
    assert Sum(xs[..3]) == xs[0] + xs[1] + xs[2];
    assert Sum(xs[..4]) == xs[0] + xs[1] + xs[2] + xs[3];
  }

  /** When all five Presence questions are answered, the tally lists their scores in question order. */
  lemma FivePresenceScores(given: QuestionAnswers, expected: seq<int>)
    requires |expected| == 5
    requires forall k :: 0 <= k < 5 ==> QuestionIds(Presence)[k] in given && AnswerScore(given[QuestionIds(Presence)[k]]) == expected[k]
    ensures AnsweredScores(QuestionIds(Presence), given) == expected
    ensures Sum(expected) == expected[0] + expected[1] + expected[2] + expected[3] + expected[4]
  {
    AllAnsweredScores(QuestionIds(Presence), given, expected);
    SumOfFive(expected);
  }
}
