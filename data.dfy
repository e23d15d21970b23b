/**
 * The constant tables of the scan (lib/data.ts): the five pillars with their question ids,
 * the canonical pillar order, the pillar weights, the answer scores and the indicator map.
 * Question wording, intros, taglines and indicator descriptions are prose and are not modelled.
 */
module QpsData {

  import opened Wrappers

  datatype Pillar = Presence | Digital | Space | Narrative | Signature
  datatype Answer = Yes | Maybe | No
  datatype Role = Owner | Client1 | Client2 | Client3

  /** One entry of GI_MAP: an indicator name and the question ids it averages. */
  datatype Indicator = Indicator(name: string, ids: seq<string>)

  /** The canonical pillar order used for selection, navigation, display and scoring. */
  const OrderedPillars: seq<Pillar> := [Presence, Digital, Space, Narrative, Signature]

  const AllPillars: set<Pillar> := {Presence, Digital, Space, Narrative, Signature}

  /** Number of questions of every pillar. */
  const QuestionsPerPillar: nat := 5

  /** Position of a pillar in the canonical order. */
  function CanonicalIndex(p: Pillar): (i: nat)
    ensures i < |OrderedPillars| && OrderedPillars[i] == p
  {
    match p
    case Presence => 0
    case Digital => 1
    case Space => 2
    case Narrative => 3
    case Signature => 4
  }

  /** The key under which the pillar is stored in qpsQuestions. */
  function PillarKey(p: Pillar): string
  {
    match p
    case Presence => "presence"
    case Digital => "digital"
    case Space => "space"
    case Narrative => "narrative"
    case Signature => "signature"
  }

  function PillarName(p: Pillar): string
  {
    match p
    case Presence => "Quiet Presence"
    case Digital => "Quiet Digital"
    case Space => "Quiet Space"
    case Narrative => "Quiet Narrative"
    case Signature => "Quiet Signature"
  }

  function PillarTag(p: Pillar): string
  {
    match p
    case Presence => "P"
    case Digital => "D"
    case Space => "S"
    case Narrative => "N"
    case Signature => "G"
  }

  /** The ids of the pillar's questions, in question order. */
  function QuestionIds(p: Pillar): seq<string>
  {
    match p
    case Presence => ["P1", "P2", "P3", "P4", "P5"]
    case Digital => ["D1", "D2", "D3", "D4", "D5"]
    case Space => ["S1", "S2", "S3", "S4", "S5"]
    case Narrative => ["N1", "N2", "N3", "N4", "N5"]
    case Signature => ["G1", "G2", "G3", "G4", "G5"]
  }

  /** PILLAR_WEIGHTS: every pillar weighs 1. */
  function PillarWeight(p: Pillar): (w: real)
    ensures w > 0.0
  {
    match p
    case Presence => 1.0
    case Digital => 1.0
    case Space => 1.0
    case Narrative => 1.0
    case Signature => 1.0
  }

  /** ANSWER_SCORES: yes, maybe and no score 4, 2 and 0. */
  function AnswerScore(a: Answer): (s: int)
    ensures 0 <= s <= 4 && s % 2 == 0
    ensures s == 4 <==> a == Yes
    ensures s == 0 <==> a == No
  {
    match a
    case Yes => 4
    case Maybe => 2
    case No => 0
  }

  const GhiIndicators: seq<string> := [
    "Retention", "Pricing Power", "Penetration", "Share of Search",
    "Lifetime Value vs. Cost to Acquire", "Referrals & Advocacy", "Conversion Efficiency",
    "Experience Consistency", "Frictionless Access", "Desire to Stay"
  ]

  /** The keys of GI_DESC (its values are prose). */
  const GiDescKeys: set<string> := {
    "Retention", "Pricing Power", "Penetration", "Share of Search",
    "Lifetime Value vs. Cost to Acquire", "Referrals & Advocacy", "Conversion Efficiency",
    "Experience Consistency", "Frictionless Access", "Desire to Stay"
  }

  const GiMap: seq<Indicator> := [
    Indicator("Retention", ["P2", "S5", "G5"]),
    Indicator("Pricing Power", ["D3", "N5", "G4"]),
    Indicator("Penetration", ["D1", "N1", "S1"]),
    Indicator("Share of Search", ["D1", "D5", "N1"]),
    Indicator("Lifetime Value vs. Cost to Acquire", ["D4", "N3", "N5"]),
    Indicator("Referrals & Advocacy", ["P5", "G2", "N2"]),
    Indicator("Conversion Efficiency", ["D4", "N3"]),
    Indicator("Experience Consistency", ["N2", "G3", "P3"]),
    Indicator("Frictionless Access", ["D4", "S2"]),
    Indicator("Desire to Stay", ["S5", "G5"])
  ]

  /** The keys of ROLE_LABELS and of the answers record. */
  function RoleKey(r: Role): string
  {
    match r
    case Owner => "owner"
    case Client1 => "client1"
    case Client2 => "client2"
    case Client3 => "client3"
  }

  /** ROLE_LABELS: the display label of each respondent role. */
  function RoleLabel(r: Role): string
  {
    match r
    case Owner => "You – brand / business owner"
    case Client1 => "Client 1"
    case Client2 => "Client 2"
    case Client3 => "Client 3"
  }

  /** The pillar whose question list contains `qid`, if any. */
  function OwnerOf(qid: string): (r: Option<Pillar>)
  {
    if qid in QuestionIds(Presence) then Some(Presence)
    else if qid in QuestionIds(Digital) then Some(Digital)
    else if qid in QuestionIds(Space) then Some(Space)
    else if qid in QuestionIds(Narrative) then Some(Narrative)
    else if qid in QuestionIds(Signature) then Some(Signature)
    else None
  }

  predicate NoDuplicates<T(==)>(xs: seq<T>)
  {
    forall i, j :: 0 <= i < j < |xs| ==> xs[i] != xs[j]
  }

  /** A question id is its pillar's tag followed by its 1-based position. */
  lemma QuestionIdShape(p: Pillar, i: nat)
    requires i < QuestionsPerPillar
    ensures |QuestionIds(p)| == QuestionsPerPillar
    ensures |QuestionIds(p)[i]| == 2 && |PillarTag(p)| == 1
    ensures QuestionIds(p)[i][0] == PillarTag(p)[0]
    ensures QuestionIds(p)[i][1] == ('1' as int + i) as char
  {
  }

  /** orderedPillars lists exactly the five keys of qpsQuestions, each once. */
  lemma OrderedPillarsListEveryPillarOnce()
    ensures |OrderedPillars| == 5 && NoDuplicates(OrderedPillars)
    ensures forall p: Pillar :: p in OrderedPillars
    ensures forall i :: 0 <= i < 5 ==> PillarKey(OrderedPillars[i]) == ["presence", "digital", "space", "narrative", "signature"][i]
    ensures forall p, q: Pillar :: PillarKey(p) == PillarKey(q) ==> p == q
  {
    forall p: Pillar ensures p in OrderedPillars {
      assert OrderedPillars[CanonicalIndex(p)] == p;
    }
  }

  /** Every pillar has five questions, and the 25 ids are pairwise distinct across pillars. */
  lemma QuestionIdsDistinct(p: Pillar, i: nat, q: Pillar, j: nat)
    requires i < QuestionsPerPillar && j < QuestionsPerPillar
    ensures |QuestionIds(p)| == QuestionsPerPillar
    ensures QuestionIds(p)[i] == QuestionIds(q)[j] ==> p == q && i == j
  {
    QuestionIdShape(p, i);
    QuestionIdShape(q, j);
    if QuestionIds(p)[i] == QuestionIds(q)[j] {
      assert PillarTag(p)[0] == PillarTag(q)[0];
      assert ('1' as int + i) as char == ('1' as int + j) as char;
    }
  }

  /** OwnerOf names the one pillar that lists a question id. */
  lemma OwnerOfIsOwner(qid: string, p: Pillar)
    ensures qid in QuestionIds(p) <==> OwnerOf(qid) == Some(p)
  {
    if qid in QuestionIds(p) {
      var i :| 0 <= i < |QuestionIds(p)| && QuestionIds(p)[i] == qid;
      var o := OwnerOf(qid);
      assert o.Some?;
      var j :| 0 <= j < |QuestionIds(o.value)| && QuestionIds(o.value)[j] == qid;
      QuestionIdsDistinct(p, i, o.value, j);
    }
  }

  /** GI_MAP has ten entries of two or three distinct ids, each owned by a pillar. */
  lemma GiMapWellFormed()
    ensures |GiMap| == 10
    ensures forall k :: 0 <= k < |GiMap| ==> 2 <= |GiMap[k].ids| <= 3 && NoDuplicates(GiMap[k].ids)
    ensures forall k, n :: 0 <= k < |GiMap| && 0 <= n < |GiMap[k].ids| ==> OwnerOf(GiMap[k].ids[n]).Some?
  {
  }

  /** GI_MAP names are GHI_INDICATORS in order, and each has a GI_DESC entry. */
  lemma GiMapNamesMatchIndicators()
    ensures |GiMap| == |GhiIndicators|
    ensures forall k :: 0 <= k < |GiMap| ==> GiMap[k].name == GhiIndicators[k] && GiMap[k].name in GiDescKeys
  {
  }
}
