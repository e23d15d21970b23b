/**
 * The comparisons components/SummaryCard.tsx draws between the brand's own view and its
 * clients' view: the gap between two scores, the reading of a gap, and the pillar's GHI lens,
 * which scores each indicator from the questions of one pillar alone, averaging the clients
 * question by question.
 */
module SummaryLens {

  import opened Wrappers
  import opened QpsData
  import opened Scoring
  import opened Aggregation

  function Abs(x: real): (r: real)
    ensures r >= 0.0 && (r == x || r == -x)
  {
    if x < 0.0 then -x else x
  }

  /** `(a != null && b != null) ? Math.abs(a - b) : null` */
  function Gap(a: Option<real>, b: Option<real>): Option<real>
  {
    if a.Some? && b.Some? then Some(Abs(a.value - b.value)) else None
  }

  /**
   * The gap is defined iff both sides are, is the same whichever side comes first, is the
   * distance between the two scores, is zero exactly when they agree, and stays within the
   * scale when both scores do.
   */
  lemma GapFacts(a: Option<real>, b: Option<real>)
    ensures Gap(a, b).Some? <==> a.Some? && b.Some?
    ensures Gap(a, b) == Gap(b, a)
    ensures Gap(a, b).Some? ==>
      && Gap(a, b).value >= 0.0
      && (Gap(a, b).value == a.value - b.value || Gap(a, b).value == b.value - a.value)
      && (Gap(a, b).value == 0.0 <==> a == b)
    ensures a.Some? && b.Some? && 0.0 <= a.value <= 4.0 && 0.0 <= b.value <= 4.0 ==> Gap(a, b).value <= 4.0
  {
  }

  /** The reading of a gap shown under a comparison. */
  datatype Tone = NotSized | StrongGap | ModerateGap | Aligned

  function ToneOf(gap: Option<real>): Tone
  {
    match gap
    case None => NotSized
    case Some(g) => if g >= 1.0 then StrongGap else if g >= 0.4 then ModerateGap else Aligned
  }

  /** The readings partition the gaps: none, at least 1.0, from 0.4 up to 1.0, and below 0.4. */
  lemma ToneBands(gap: Option<real>)
    ensures ToneOf(gap) == NotSized <==> gap.None?
    ensures ToneOf(gap) == StrongGap <==> gap.Some? && gap.value >= 1.0
    ensures ToneOf(gap) == ModerateGap <==> gap.Some? && 0.4 <= gap.value < 1.0
    ensures ToneOf(gap) == Aligned <==> gap.Some? && gap.value < 0.4
  {
  }

  /** An owner at 3.5 against clients at 1.9 is 1.6 apart, a strong perception gap; the reading is symmetric. */
  lemma ToneExample()
    ensures Gap(Some(3.5), Some(1.9)) == Some(1.6)
    ensures ToneOf(Gap(Some(3.5), Some(1.9))) == StrongGap
    ensures ToneOf(Gap(Some(2.0), Some(2.3))) == Aligned && ToneOf(Gap(Some(2.3), Some(2.0))) == Aligned
  {
  }

  // ---------------------------------------------------------------------------------------
  // The pillar's GHI lens

  /** `qIdsHere`: the indicator's ids that are questions of pillar `key`, in order. */
  function IdsHere(ids: seq<string>, key: Pillar): (r: seq<string>)
    ensures |r| <= |ids|
    ensures forall x :: x in r <==> x in ids && x in QuestionIds(key)
  {
    if ids == [] then []
    else
      var last := ids[|ids| - 1];
      IdsHere(ids[..|ids| - 1], key) + (if last in QuestionIds(key) then [last] else [])
  }

  /** The scores of the answers that the given roles stored for `qid` under pillar `key`, in role order. */
  function RoleScoresFor(answers: Answers, key: Pillar, qid: string, roles: seq<Role>): (r: seq<int>)
    ensures |r| <= |roles|
    ensures forall k :: 0 <= k < |r| ==> 0 <= r[k] <= 4
  {
    if roles == [] then []
    else
      var entry := Given(answers.Of(roles[|roles| - 1]), key);
      RoleScoresFor(answers, key, qid, roles[..|roles| - 1]) + (if qid in entry then [AnswerScore(entry[qid])] else [])
  }

  /** `avgA`: the mean over the three clients of their answers to one question. */
  function ClientMeanFor(answers: Answers, key: Pillar, qid: string): Option<real>
  {
    Mean(RoleScoresFor(answers, key, qid, ClientRoles))
  }

  /** `clientVals`: the per-question client means that exist, in the order of `ids`. */
  function ClientVals(answers: Answers, key: Pillar, ids: seq<string>): (r: seq<real>)
    ensures |r| <= |ids|
  {
    if ids == [] then []
    else
      var m := ClientMeanFor(answers, key, ids[|ids| - 1]);
      ClientVals(answers, key, ids[..|ids| - 1]) + (if m.Some? then [m.value] else [])
  }

  function SumReal(xs: seq<real>): real
  {
    if xs == [] then 0.0 else SumReal(xs[..|xs| - 1]) + xs[|xs| - 1]
  }

  /** `xs.length ? sum / xs.length : null` over reals. */
  function MeanReal(xs: seq<real>): (m: Option<real>)
    ensures m.None? <==> xs == []
  {
    if xs == [] then None else Some(SumReal(xs) / |xs| as real)
  }

  /** One indicator card of the lens. */
  datatype LensCard = LensCard(name: string, ownerScore: Option<real>, clientScore: Option<real>, gap: Option<real>, tone: Tone)

  /** The card of one indicator for pillar `key`, or nothing when none of its ids belongs to the pillar. */
  function LensEntry(answers: Answers, key: Pillar, ind: Indicator): Option<LensCard>
  {
    var here := IdsHere(ind.ids, key);
    if here == [] then None
    else
      var o := Mean(AnsweredScores(here, Given(answers.Of(Owner), key)));
      var c := MeanReal(ClientVals(answers, key, here));
      var g := Gap(o, c);
      Some(LensCard(ind.name, o, c, g, ToneOf(g)))
  }

  /** The cards of the indicators that touch pillar `key`, in the order of `inds`. */
  function LensOf(answers: Answers, key: Pillar, inds: seq<Indicator>): (r: seq<LensCard>)
    ensures |r| <= |inds|
  {
    if inds == [] then []
    else
      var e := LensEntry(answers, key, inds[|inds| - 1]);
      LensOf(answers, key, inds[..|inds| - 1]) + (if e.Some? then [e.value] else [])
  }

  // ---------------------------------------------------------------------------------------
  // The loops of the lens

  /** The per-question client average: collect the clients' scores for `qid`, then average them. */
  method ClientAverageFor(answers: Answers, key: Pillar, qid: string) returns (avg: Option<real>)
    ensures avg == ClientMeanFor(answers, key, qid)
  {
    var vals: seq<int> := [];
    for i := 0 to |ClientRoles|
      invariant vals == RoleScoresFor(answers, key, qid, ClientRoles[..i])
    {
      assert ClientRoles[..i + 1][..i] == ClientRoles[..i];
      var entry := Given(answers.Of(ClientRoles[i]), key);
      if qid in entry {
        vals := vals + [AnswerScore(entry[qid])];
      }
    }
    assert ClientRoles[..|ClientRoles|] == ClientRoles;
    if vals == [] {
      avg := None;
    } else {
      avg := Some(Sum(vals) as real / |vals| as real);
    }
  }

  lemma ClientValsSnoc(answers: Answers, key: Pillar, ids: seq<string>, i: nat)
    requires i < |ids|
    ensures var m := ClientMeanFor(answers, key, ids[i]);
      ClientVals(answers, key, ids[..i + 1]) == ClientVals(answers, key, ids[..i]) + (if m.Some? then [m.value] else [])
  {
    assert ids[..i + 1][..i] == ids[..i];
  }

  /** `qIdsHere.forEach`: the owner's scores and the clients' per-question means. */
  method CollectVals(answers: Answers, key: Pillar, here: seq<string>) returns (ownerVals: seq<int>, clientVals: seq<real>)
    ensures ownerVals == AnsweredScores(here, Given(answers.Of(Owner), key))
    ensures clientVals == ClientVals(answers, key, here)
  {
    var owner := Given(answers.Of(Owner), key);
    ownerVals := [];
    clientVals := [];
    for i := 0 to |here|
      invariant ownerVals == AnsweredScores(here[..i], owner)
      invariant clientVals == ClientVals(answers, key, here[..i])
    {
      var qid := here[i];
      AnsweredScoresSnoc(here, i, owner);
      ClientValsSnoc(answers, key, here, i);
      if qid in owner {
        ownerVals := ownerVals + [AnswerScore(owner[qid])];
      }
      var avgA := ClientAverageFor(answers, key, qid);
      if avgA.Some? {
        clientVals := clientVals + [avgA.value];
      }
    }
    assert here[..|here|] == here;
  }

  /** One pass of `GI_MAP.forEach`: the card of one indicator. */
  method LensCardFor(answers: Answers, key: Pillar, ind: Indicator) returns (card: Option<LensCard>)
    ensures card == LensEntry(answers, key, ind)
  {
    var here := IdsHere(ind.ids, key);
    if here == [] {
      return None;
    }
    var ownerVals, clientVals := CollectVals(answers, key, here);
    var oScore := if ownerVals != [] then Some(Sum(ownerVals) as real / |ownerVals| as real) else None;
    var cScore := if clientVals != [] then Some(SumReal(clientVals) / |clientVals| as real) else None;
    var gap := Gap(oScore, cScore);
    card := Some(LensCard(ind.name, oScore, cScore, gap, ToneOf(gap)));
  }

  /** `GI_MAP.forEach`: the cards of the indicators that touch the pillar. */
  method PillarGhiLens(answers: Answers, key: Pillar, inds: seq<Indicator>) returns (cards: seq<LensCard>)
    ensures cards == LensOf(answers, key, inds)
  {
    cards := [];
    for i := 0 to |inds|
      invariant cards == LensOf(answers, key, inds[..i])
    {
      assert inds[..i + 1][..i] == inds[..i];
      var card := LensCardFor(answers, key, inds[i]);
      if card.Some? {
        cards := cards + [card.value];
      }
    }
    assert inds[..|inds|] == inds;
  }

  // ---------------------------------------------------------------------------------------
  // What the lens means

  /** An indicator gets a card iff at least one of its ids is a question of the pillar. */
  lemma LensEntryPresence(answers: Answers, key: Pillar, ind: Indicator)
    ensures LensEntry(answers, key, ind).Some? <==> exists id :: id in ind.ids && id in QuestionIds(key)
    ensures LensEntry(answers, key, ind).Some? ==> LensEntry(answers, key, ind).value.name == ind.name
  {
    var here := IdsHere(ind.ids, key);
    if here != [] {
      assert here[0] in here;
    }
  }

  lemma AnsweredScoresSnocSeq(ids: seq<string>, x: string, given: QuestionAnswers)
    ensures AnsweredScores(ids + [x], given) == AnsweredScores(ids, given) + (if x in given then [AnswerScore(given[x])] else [])
  {
    assert (ids + [x])[..|ids|] == ids;
  }

  /** Against a single pillar, an id contributes its answer's score when it is one of that pillar's questions. */
  lemma ResolvedSingle(bundle: Bundle, key: Pillar, qid: string)
    ensures ResolvedScore(bundle, [key], qid) ==
      if qid in QuestionIds(key) && qid in Given(bundle, key) then [AnswerScore(Given(bundle, key)[qid])] else []
  {
    assert [key][1..] == [];
  }

  /** Resolving the ids against the single pillar keeps exactly the ids of that pillar. */
  lemma {:induction false} SinglePillarValues(bundle: Bundle, key: Pillar, ids: seq<string>)
    ensures IndicatorValues(bundle, [key], ids) == AnsweredScores(IdsHere(ids, key), Given(bundle, key))
  {
    if ids != [] {
      var init := ids[..|ids| - 1];
      var last := ids[|ids| - 1];
      SinglePillarValues(bundle, key, init);
      ResolvedSingle(bundle, key, last);
      if last in QuestionIds(key) {
        AnsweredScoresSnocSeq(IdsHere(init, key), last, Given(bundle, key));
      } else {
        assert IdsHere(ids, key) == IdsHere(init, key) + [];
        assert IdsHere(init, key) + [] == IdsHere(init, key);
      }
    }
  }

  /**
   * The owner's side of the lens is the owner's indicator score computed as if this pillar
   * were the only one selected: the lens isolates the pillar's contribution.
   */
  lemma OwnerLensIsSinglePillarIndicator(answers: Answers, key: Pillar, ind: Indicator)
    ensures LensEntry(answers, key, ind).Some? ==>
      LensEntry(answers, key, ind).value.ownerScore == IndicatorEntry(answers.Of(Owner), [key], ind).score
    ensures LensEntry(answers, key, ind).None? ==> IndicatorEntry(answers.Of(Owner), [key], ind).score.None?
  {
    SinglePillarValues(answers.Of(Owner), key, ind.ids);
  }

  lemma {:induction false} RoleScoresForEmpty(answers: Answers, key: Pillar, qid: string, roles: seq<Role>)
    ensures RoleScoresFor(answers, key, qid, roles) == [] <==> forall r :: r in roles ==> qid !in Given(answers.Of(r), key)
  {
    if roles != [] {
      var init := roles[..|roles| - 1];
      RoleScoresForEmpty(answers, key, qid, init);
      assert forall r :: r in roles <==> r in init || r == roles[|roles| - 1];
    }
  }

  /** The clients' mean for a question exists iff some client answered it, and lies in [0, 4]. */
  lemma ClientMeanFacts(answers: Answers, key: Pillar, qid: string)
    ensures ClientMeanFor(answers, key, qid).None? <==> forall r :: r in ClientRoles ==> qid !in Given(answers.Of(r), key)
    ensures ClientMeanFor(answers, key, qid).Some? ==> 0.0 <= ClientMeanFor(answers, key, qid).value <= 4.0
  {
    RoleScoresForEmpty(answers, key, qid, ClientRoles);
    MeanBounds(RoleScoresFor(answers, key, qid, ClientRoles), 0, 4);
  }

  lemma {:induction false} ClientValsInRange(answers: Answers, key: Pillar, ids: seq<string>)
    ensures forall k :: 0 <= k < |ClientVals(answers, key, ids)| ==> 0.0 <= ClientVals(answers, key, ids)[k] <= 4.0
  {
    if ids != [] {
      ClientValsInRange(answers, key, ids[..|ids| - 1]);
      ClientMeanFacts(answers, key, ids[|ids| - 1]);
    }
  }

  lemma {:induction false} SumRealBounds(xs: seq<real>)
    requires forall k :: 0 <= k < |xs| ==> 0.0 <= xs[k] <= 4.0
    ensures 0.0 <= SumReal(xs) <= 4.0 * |xs| as real
  {
    if xs != [] {
      SumRealBounds(xs[..|xs| - 1]);
    }
  }

  lemma MeanRealBounds(xs: seq<real>)
    requires forall k :: 0 <= k < |xs| ==> 0.0 <= xs[k] <= 4.0
    ensures MeanReal(xs).Some? ==> 0.0 <= MeanReal(xs).value <= 4.0
  {
    if xs != [] {
      SumRealBounds(xs);
      DivideBounds(SumReal(xs), |xs| as real, 0.0, 4.0);
    }
  }

  /** Every score and gap on a lens card lies in [0, 4], and the reading matches the gap. */
  lemma LensEntryInRange(answers: Answers, key: Pillar, ind: Indicator)
    ensures var e := LensEntry(answers, key, ind);
      e.Some? ==>
        && (e.value.ownerScore.Some? ==> 0.0 <= e.value.ownerScore.value <= 4.0)
        && (e.value.clientScore.Some? ==> 0.0 <= e.value.clientScore.value <= 4.0)
        && (e.value.gap.Some? ==> 0.0 <= e.value.gap.value <= 4.0)
        && e.value.tone == ToneOf(e.value.gap)
        && (e.value.gap.Some? <==> e.value.ownerScore.Some? && e.value.clientScore.Some?)
  {
    var here := IdsHere(ind.ids, key);
    MeanBounds(AnsweredScores(here, Given(answers.Of(Owner), key)), 0, 4);
    ClientValsInRange(answers, key, here);
    MeanRealBounds(ClientVals(answers, key, here));
  }

  /** Every card of the lens is the card of one of the indicators. */
  lemma {:induction false} LensOfSound(answers: Answers, key: Pillar, inds: seq<Indicator>)
    ensures forall c :: c in LensOf(answers, key, inds) ==>
      exists k :: 0 <= k < |inds| && LensEntry(answers, key, inds[k]) == Some(c)
  {
    if inds != [] {
      var init := inds[..|inds| - 1];
      LensOfSound(answers, key, init);
      forall c | c in LensOf(answers, key, inds)
        ensures exists k :: 0 <= k < |inds| && LensEntry(answers, key, inds[k]) == Some(c)
      {
        if c in LensOf(answers, key, init) {
          var k :| 0 <= k < |init| && LensEntry(answers, key, init[k]) == Some(c);
          assert inds[k] == init[k];
        } else {
          assert LensEntry(answers, key, inds[|inds| - 1]) == Some(c);
        }
      }
    }
  }

  /** The card of the indicator at position `k`, when it has one, is in the lens. */
  lemma {:induction false} LensOfHas(answers: Answers, key: Pillar, inds: seq<Indicator>, k: nat)
    requires k < |inds| && LensEntry(answers, key, inds[k]).Some?
    ensures LensEntry(answers, key, inds[k]).value in LensOf(answers, key, inds)
  {
    var init := inds[..|inds| - 1];
    var last := LensEntry(answers, key, inds[|inds| - 1]);
    var tail := if last.Some? then [last.value] else [];
    assert LensOf(answers, key, inds) == LensOf(answers, key, init) + tail;
    if k < |init| {
      assert inds[k] == init[k];
      LensOfHas(answers, key, init, k);
    } else {
      assert k == |inds| - 1;
      assert last == LensEntry(answers, key, inds[k]);
    }
  }

  /** Every indicator that touches the pillar has its card in the lens. */
  lemma LensOfComplete(answers: Answers, key: Pillar, inds: seq<Indicator>)
    ensures forall k :: 0 <= k < |inds| && LensEntry(answers, key, inds[k]).Some? ==>
      LensEntry(answers, key, inds[k]).value in LensOf(answers, key, inds)
  {
    forall k | 0 <= k < |inds| && LensEntry(answers, key, inds[k]).Some?
      ensures LensEntry(answers, key, inds[k]).value in LensOf(answers, key, inds)
    {
      LensOfHas(answers, key, inds, k);
    }
  }
}
