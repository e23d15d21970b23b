/**
 * The application state of contexts/AppContext.tsx and its reducer appReducer, as a transition
 * function `Reduce(s, a)` over a state datatype. `Defined(s, a)` names the states in which the
 * reducer returns a value rather than failing on a missing role or a missing pillar.
 */
module AppContext {

  import opened Wrappers
  import opened QpsData
  import opened Scoring

  /** `Who` without its null (the null is `None`). */
  datatype Who = MyBrand | ClientWho

  /** `Scope` without its null. */
  datatype Scope = Full | Custom

  datatype Mode = IntroMode | RulesMode | SetupMode | FlowMode | SummaryMode

  /** `SummaryStage` without its null. */
  datatype Stage = PillarStage | PillarGhiStage | OverallStage | OverallGhiStage | FinalStage

  datatype SummaryCursor = SummaryCursor(stage: Option<Stage>, pillarIndex: nat)

  datatype AppState = AppState(
    initialWho: Option<Who>,
    scope: Option<Scope>,
    pillars: set<Pillar>,
    mode: Mode,
    currentRole: Option<Role>,
    rolesSequence: seq<Role>,
    currentRoleIndex: nat,
    currentPillarIndex: nat,
    currentQuestionIndex: int,
    answers: Answers,
    summary: SummaryCursor)

  const InitialState: AppState :=
    AppState(None, None, {}, IntroMode, None, [], 0, 0, -1, NoAnswers, SummaryCursor(None, 0))

  datatype Action =
    | SetWho(who: Option<Who>)
    | SetScope(scope: Option<Scope>)
    | TogglePillar(key: Pillar)
    | SetMode(mode: Mode)
    | StartFlow(flowWho: Option<Who>, flowScope: Option<Scope>, flowPillars: set<Pillar>)
    | SetAnswer(pillarKey: Pillar, questionId: string, answer: Answer)
    | NextQuestion
    | PrevQuestion
    | ResetPillar
    | AddClient
    | EnterSummary
    | SetSummaryStage(stage: Option<Stage>)
    | NextPillarSummary
    | PrevPillarSummary
    | Restart

  /** The selected pillars in canonical order. */
  function Active(s: AppState): seq<Pillar>
  {
    ActivePillars(s.pillars)
  }

  /** `nextRoleMap`: owner, client1, client2, client3, then nobody. */
  function NextRole(r: Role): Option<Role>
  {
    match r
    case Owner => Some(Client1)
    case Client1 => Some(Client2)
    case Client2 => Some(Client3)
    case Client3 => None
  }

  /** `indexOf`: the first position of `x`. */
  function IndexOf<T(==)>(xs: seq<T>, x: T): (i: nat)
    requires x in xs
    ensures i < |xs| && xs[i] == x && forall j :: 0 <= j < i ==> xs[j] != x
  {
    if xs[0] == x then 0 else 1 + IndexOf(xs[1..], x)
  }

  /**
   * The states in which the reducer returns: SET_ANSWER and RESET_PILLAR read the answers of
   * `currentRole!`, NEXT_QUESTION reads the question list of the pillar under the cursor, and
   * PREV_QUESTION reads that of the previous pillar when it steps back across a pillar.
   */
  predicate Defined(s: AppState, a: Action)
  {
    match a
    case SetAnswer(_, _, _) => s.currentRole.Some?
    case ResetPillar => s.currentRole.Some?
    case NextQuestion => s.currentPillarIndex < |Active(s)|
    case PrevQuestion =>
      s.currentQuestionIndex > 0 || s.currentPillarIndex == 0 || s.currentPillarIndex - 1 < |Active(s)|
    case _ => true
  }

  /** The bundle with `answer` recorded for `qid` under pillar `key` (the entry is created if missing). */
  function Upsert(bundle: Bundle, key: Pillar, qid: string, answer: Answer): Bundle
  {
    bundle[key := Given(bundle, key)[qid := answer]]
  }

  /** appReducer */
  function Reduce(s: AppState, a: Action): AppState
    requires Defined(s, a)
  {
    match a
    case SetWho(who) => s.(initialWho := who)
    case SetScope(scope) => s.(scope := scope)
    case TogglePillar(key) =>
      s.(pillars := if key in s.pillars then s.pillars - {key} else s.pillars + {key})
    case SetMode(mode) => s.(mode := mode)
    case StartFlow(who, scope, pillars) =>
      var roles := if who == Some(MyBrand) then [Owner] else [Client1];
      s.(initialWho := who, scope := scope, pillars := pillars, mode := FlowMode,
         currentRole := Some(roles[0]), rolesSequence := roles, currentRoleIndex := 0,
         currentPillarIndex := 0, currentQuestionIndex := -1)
    case SetAnswer(key, qid, answer) =>
      var role := s.currentRole.value;
      s.(answers := s.answers.With(role, Upsert(s.answers.Of(role), key, qid, answer)))
    case NextQuestion =>
      var active := Active(s);
      if s.currentQuestionIndex < QuestionsPerPillar - 1 then
        s.(currentQuestionIndex := s.currentQuestionIndex + 1)
      else if s.currentPillarIndex < |active| - 1 then
        s.(currentPillarIndex := s.currentPillarIndex + 1, currentQuestionIndex := -1)
      else
        s.(currentPillarIndex := |active|)
    case PrevQuestion =>
      if s.currentQuestionIndex > 0 then
        s.(currentQuestionIndex := s.currentQuestionIndex - 1)
      else if s.currentPillarIndex > 0 then
        s.(currentPillarIndex := s.currentPillarIndex - 1, currentQuestionIndex := QuestionsPerPillar - 1)
      else
        s
    case ResetPillar =>
      var active := Active(s);
      var role := s.currentRole.value;
      var bundle := s.answers.Of(role);
      var kept := if s.currentPillarIndex < |active| && active[s.currentPillarIndex] in bundle
                  then bundle - {active[s.currentPillarIndex]} else bundle;
      s.(answers := s.answers.With(role, kept), currentQuestionIndex := -1)
    case AddClient =>
      if s.currentRole.None? || NextRole(s.currentRole.value).None? then s
      else
        var next := NextRole(s.currentRole.value).value;
        var extended := if next in s.rolesSequence then s.rolesSequence else s.rolesSequence + [next];
        s.(currentRole := Some(next), currentRoleIndex := IndexOf(extended, next),
           currentPillarIndex := 0, currentQuestionIndex := -1)
    case EnterSummary =>
      s.(mode := SummaryMode, summary := SummaryCursor(Some(PillarStage), 0))
    case SetSummaryStage(stage) =>
      s.(summary := s.summary.(stage := stage))
    case NextPillarSummary =>
      if s.summary.pillarIndex >= |Active(s)| - 1 then s.(summary := SummaryCursor(Some(OverallStage), 0))
      else s.(summary := SummaryCursor(Some(PillarStage), s.summary.pillarIndex + 1))
    case PrevPillarSummary =>
      if s.summary.pillarIndex == 0 then s
      else s.(summary := SummaryCursor(Some(PillarStage), s.summary.pillarIndex - 1))
    case Restart => InitialState
  }

  /** Every action of the list is defined in the state the earlier ones lead to. */
  predicate RunDefined(s: AppState, acts: seq<Action>)
    decreases |acts|, 0
  {
    acts == [] || (RunDefined(s, acts[..|acts| - 1]) && Defined(Run(s, acts[..|acts| - 1]), acts[|acts| - 1]))
  }

  /** Dispatching the actions in order. */
  function Run(s: AppState, acts: seq<Action>): AppState
    requires RunDefined(s, acts)
    decreases |acts|, 1
  {
    if acts == [] then s else Reduce(Run(s, acts[..|acts| - 1]), acts[|acts| - 1])
  }

  // ---------------------------------------------------------------------------------------
  // Invariants

  /** The question cursor is the intro (-1) or a question of the pillar, and the pillar cursor is at most #active. */
  predicate CursorsOk(s: AppState)
  {
    -1 <= s.currentQuestionIndex < QuestionsPerPillar && s.currentPillarIndex <= |Active(s)|
  }

  /** Every stored pillar entry holds at least one answer. */
  predicate NoEmptyEntries(answers: Answers)
  {
    forall r: Role, k :: k in answers.Of(r) ==> answers.Of(r)[k] != map[]
  }

  lemma InitialStateOk()
    ensures CursorsOk(InitialState) && NoEmptyEntries(InitialState.answers)
  {
    ActiveCount({});
  }

  /** Within the cursor invariant, PREV_QUESTION always has a previous pillar to read. */
  lemma PrevDefinedUnderCursors(s: AppState)
    requires CursorsOk(s)
    ensures Defined(s, PrevQuestion)
  {
  }

  /**
   * Every defined action keeps the cursors in range, except that TOGGLE_PILLAR may shrink the
   * selection under a pillar cursor past pillar 0.
   */
  lemma CursorsPreserved(s: AppState, a: Action)
    requires CursorsOk(s) && Defined(s, a)
    requires a.TogglePillar? ==> s.currentPillarIndex == 0
    ensures CursorsOk(Reduce(s, a))
  {
    if a.Restart? {
      InitialStateOk();
    }
  }

  /** A toggle that empties the selection under a pillar cursor breaks the cursor invariant. */
  lemma ToggleCanBreakCursors()
    ensures var s := InitialState.(pillars := {Presence}, currentPillarIndex := 1);
      CursorsOk(s) && !CursorsOk(Reduce(s, TogglePillar(Presence)))
  {
    var s := InitialState.(pillars := {Presence}, currentPillarIndex := 1);
    ActiveCount({Presence});
    assert Reduce(s, TogglePillar(Presence)).pillars == {};
    ActiveCount({});
  }

  /** No action stores an empty pillar entry. */
  lemma NoEmptyEntriesPreserved(s: AppState, a: Action)
    requires NoEmptyEntries(s.answers) && Defined(s, a)
    ensures NoEmptyEntries(Reduce(s, a).answers)
  {
    var t := Reduce(s, a);
    match a
    case SetAnswer(key, qid, answer) =>
      var role := s.currentRole.value;
      forall r: Role, k | k in t.answers.Of(r) ensures t.answers.Of(r)[k] != map[] {
        if r == role && k == key {
          assert qid in t.answers.Of(r)[k];
        }
      }
    case ResetPillar =>
    case Restart =>
    case _ =>
  }

  // ---------------------------------------------------------------------------------------
  // Pillar selection

  /** TOGGLE_PILLAR flips the membership of exactly its key and changes nothing else. */
  lemma ToggleFlips(s: AppState, k: Pillar)
    ensures var t := Reduce(s, TogglePillar(k));
      && (k in t.pillars <==> k !in s.pillars)
      && (forall p :: p != k ==> (p in t.pillars <==> p in s.pillars))
      && t == s.(pillars := t.pillars)
  {
  }

  /** Toggling the same key twice restores the state. */
  lemma ToggleTwice(s: AppState, k: Pillar)
    ensures Reduce(Reduce(s, TogglePillar(k)), TogglePillar(k)) == s
  {
    var t := Reduce(Reduce(s, TogglePillar(k)), TogglePillar(k));
    assert t.pillars == s.pillars;
  }

  // ---------------------------------------------------------------------------------------
  // Starting the flow

  /**
   * START_FLOW starts with the owner iff the respondent is the brand itself, otherwise with
   * client 1, at the first pillar's intro, and keeps the answers already given.
   */
  lemma StartFlowFacts(s: AppState, who: Option<Who>, scope: Option<Scope>, pillars: set<Pillar>)
    ensures var t := Reduce(s, StartFlow(who, scope, pillars));
      && (t.rolesSequence == [Owner] <==> who == Some(MyBrand))
      && (who != Some(MyBrand) ==> t.rolesSequence == [Client1])
      && |t.rolesSequence| == 1 && t.currentRole == Some(t.rolesSequence[0])
      && t.mode == FlowMode && t.currentRoleIndex == 0
      && t.currentPillarIndex == 0 && t.currentQuestionIndex == -1
      && t.initialWho == who && t.scope == scope && t.pillars == pillars
      && t.answers == s.answers && t.summary == s.summary
  {
  }

  // ---------------------------------------------------------------------------------------
  // Answers

  /**
   * SET_ANSWER records the answer for the current role, pillar and question, creating the entry
   * if needed; every other role, pillar and question keeps its answer, and nothing else changes.
   */
  lemma SetAnswerFacts(s: AppState, key: Pillar, qid: string, answer: Answer)
    requires s.currentRole.Some?
    ensures var t := Reduce(s, SetAnswer(key, qid, answer));
      var role := s.currentRole.value;
      var before, after := s.answers.Of(role), t.answers.Of(role);
      && key in after && qid in after[key] && after[key][qid] == answer
      && (forall q :: q != qid ==> (q in after[key] <==> q in Given(before, key)))
      && (forall q :: q != qid && q in after[key] ==> after[key][q] == Given(before, key)[q])
      && (forall p :: p != key ==> (p in after <==> p in before))
      && (forall p :: p != key && p in after ==> after[p] == before[p])
      && (forall r :: r != role ==> t.answers.Of(r) == s.answers.Of(r))
      && t == s.(answers := t.answers)
  {
  }

  /** Recording the same answer twice is the same as recording it once. */
  lemma SetAnswerIdempotent(s: AppState, key: Pillar, qid: string, answer: Answer)
    requires s.currentRole.Some?
    ensures Reduce(Reduce(s, SetAnswer(key, qid, answer)), SetAnswer(key, qid, answer)) == Reduce(s, SetAnswer(key, qid, answer))
  {
    var a := SetAnswer(key, qid, answer);
    var t := Reduce(s, a);
    var role := s.currentRole.value;
    assert Given(t.answers.Of(role), key)[qid := answer] == Given(t.answers.Of(role), key);
    assert Upsert(t.answers.Of(role), key, qid, answer) == t.answers.Of(role);
    assert t.answers.With(role, t.answers.Of(role)) == t.answers;
  }

  /**
   * RESET_PILLAR removes the current role's entry for the pillar under the cursor and returns to
   * its intro; the role, the pillar cursor, the other entries and the other roles are unchanged.
   */
  lemma ResetFacts(s: AppState)
    requires s.currentRole.Some?
    ensures var t := Reduce(s, ResetPillar);
      var role := s.currentRole.value;
      var before, after := s.answers.Of(role), t.answers.Of(role);
      var active := Active(s);
      && (s.currentPillarIndex < |active| ==> active[s.currentPillarIndex] !in after)
      && (forall p :: (s.currentPillarIndex >= |active| || p != active[s.currentPillarIndex]) ==>
            (p in after <==> p in before) && (p in after ==> after[p] == before[p]))
      && (forall r :: r != role ==> t.answers.Of(r) == s.answers.Of(r))
      && t == s.(answers := t.answers, currentQuestionIndex := -1)
  {
  }

  /** The SET_ANSWER actions that re-enter the answers of `entry` for the ids listed in `ids`. */
  function Replay(key: Pillar, entry: QuestionAnswers, ids: seq<string>): (acts: seq<Action>)
    requires forall id :: id in ids ==> id in entry
    ensures |acts| == |ids|
  {
    if ids == [] then []
    else
      var id := ids[|ids| - 1];
      Replay(key, entry, ids[..|ids| - 1]) + [SetAnswer(key, id, entry[id])]
  }

  /** `base` overwritten by the answers of `entry` for the ids listed in `ids`, in order. */
  function Merge(base: QuestionAnswers, entry: QuestionAnswers, ids: seq<string>): QuestionAnswers
    requires forall id :: id in ids ==> id in entry
  {
    if ids == [] then base
    else
      var id := ids[|ids| - 1];
      Merge(base, entry, ids[..|ids| - 1])[id := entry[id]]
  }

  lemma {:induction false} MergeFacts(base: QuestionAnswers, entry: QuestionAnswers, ids: seq<string>)
    requires forall id :: id in ids ==> id in entry
    ensures forall id :: id in Merge(base, entry, ids) <==> id in base || id in ids
    ensures forall id :: id in ids ==> Merge(base, entry, ids)[id] == entry[id]
    ensures forall id :: id !in ids && id in base ==> Merge(base, entry, ids)[id] == base[id]
  {
    if ids != [] {
      MergeFacts(base, entry, ids[..|ids| - 1]);
      assert ids == ids[..|ids| - 1] + [ids[|ids| - 1]];
    }
  }

  lemma RunSnoc(s: AppState, acts: seq<Action>, a: Action)
    requires RunDefined(s, acts) && Defined(Run(s, acts), a)
    ensures RunDefined(s, acts + [a]) && Run(s, acts + [a]) == Reduce(Run(s, acts), a)
  {
    assert (acts + [a])[..|acts|] == acts;
  }

  lemma WithTwice(answers: Answers, r: Role, b1: Bundle, b2: Bundle)
    ensures answers.With(r, b1).With(r, b2) == answers.With(r, b2)
  {
  }

  /** One SET_ANSWER after the current role's bundle was set to `b`, as a further update of that bundle. */
  lemma SetAnswerAfterWith(s: AppState, b: Bundle, key: Pillar, qid: string, answer: Answer)
    requires s.currentRole.Some?
    ensures var role := s.currentRole.value;
      var t := s.(answers := s.answers.With(role, b));
      Reduce(t, SetAnswer(key, qid, answer)) == s.(answers := s.answers.With(role, Upsert(b, key, qid, answer)))
  {
    var role := s.currentRole.value;
    WithTwice(s.answers, role, b, Upsert(b, key, qid, answer));
  }

  lemma UpdateTwice<K, V>(m: map<K, V>, k: K, a: V, b: V)
    ensures m[k := a][k := b] == m[k := b]
  {
  }

  /** Replaying answers for the current role merges them into the pillar's entry and changes nothing else. */
  lemma {:induction false} ReplayEffect(s: AppState, key: Pillar, entry: QuestionAnswers, ids: seq<string>)
    requires s.currentRole.Some? && ids != []
    requires forall id :: id in ids ==> id in entry
    ensures RunDefined(s, Replay(key, entry, ids))
    ensures var role := s.currentRole.value;
      var bundle := s.answers.Of(role);
      Run(s, Replay(key, entry, ids)) == s.(answers := s.answers.With(role, bundle[key := Merge(Given(bundle, key), entry, ids)]))
  {
    var role := s.currentRole.value;
    var bundle := s.answers.Of(role);
    var init, last := ids[..|ids| - 1], ids[|ids| - 1];
    var prefix := Replay(key, entry, init);
    var step := SetAnswer(key, last, entry[last]);
    assert Replay(key, entry, ids) == prefix + [step];
    assert Merge(Given(bundle, key), entry, ids) == Merge(Given(bundle, key), entry, init)[last := entry[last]];
    var before := if init == [] then bundle else bundle[key := Merge(Given(bundle, key), entry, init)];
    if init == [] {
      assert prefix == [];
      assert s.answers.With(role, bundle) == s.answers;
    } else {
      ReplayEffect(s, key, entry, init);
    }
    assert Run(s, prefix) == s.(answers := s.answers.With(role, before));
    RunSnoc(s, prefix, step);
    SetAnswerAfterWith(s, before, key, last, entry[last]);
    var merged := Merge(Given(bundle, key), entry, ids);
    assert Given(before, key) == Merge(Given(bundle, key), entry, init);
    if init != [] {
      UpdateTwice(bundle, key, Merge(Given(bundle, key), entry, init), merged);
    }
    assert before[key := merged] == bundle[key := merged];
  }

  /**
   * Resetting the current pillar and then re-entering every answer of its old entry (in any
   * order) rebuilds the same answers; only the question cursor has moved to the intro.
   */
  lemma ResetThenReplay(s: AppState, ids: seq<string>)
    requires s.currentRole.Some? && s.currentPillarIndex < |Active(s)|
    requires NoEmptyEntries(s.answers)
    requires var bundle := s.answers.Of(s.currentRole.value);
      var key := Active(s)[s.currentPillarIndex];
      key in bundle && forall id :: id in ids <==> id in bundle[key]
    ensures var bundle := s.answers.Of(s.currentRole.value);
      var key := Active(s)[s.currentPillarIndex];
      var cleared := Reduce(s, ResetPillar);
      RunDefined(cleared, Replay(key, bundle[key], ids)) &&
      Run(cleared, Replay(key, bundle[key], ids)) == s.(currentQuestionIndex := -1)
  {
    var role := s.currentRole.value;
    var bundle := s.answers.Of(role);
    var key := Active(s)[s.currentPillarIndex];
    var entry := bundle[key];
    assert entry != map[];
    assert ids != [] by {
      var q :| q in entry;
    }
    var cleared := Reduce(s, ResetPillar);
    ResetRemovesEntry(s);
    ReplayEffect(cleared, key, entry, ids);
    var clearedBundle := bundle - {key};
    assert cleared.currentRole == s.currentRole && cleared.answers == s.answers.With(role, clearedBundle);
    assert cleared.answers.Of(role) == clearedBundle;
    MergeRestores(bundle, key, ids);
    WithTwice(s.answers, role, clearedBundle, bundle);
    assert s.answers.With(role, bundle) == s.answers;
    assert cleared.answers.With(role, bundle) == s.answers;
  }

  /** RESET_PILLAR on a pillar with an entry: the current role's bundle without that entry, at the intro. */
  lemma ResetRemovesEntry(s: AppState)
    requires s.currentRole.Some? && s.currentPillarIndex < |Active(s)|
    requires Active(s)[s.currentPillarIndex] in s.answers.Of(s.currentRole.value)
    ensures var role := s.currentRole.value;
      Reduce(s, ResetPillar) ==
        s.(answers := s.answers.With(role, s.answers.Of(role) - {Active(s)[s.currentPillarIndex]}), currentQuestionIndex := -1)
  {
  }

  /** Merging every answer of a removed entry back into the bundle restores it. */
  lemma MergeRestores(bundle: Bundle, key: Pillar, ids: seq<string>)
    requires key in bundle && forall id :: id in ids <==> id in bundle[key]
    ensures (bundle - {key})[key := Merge(Given(bundle - {key}, key), bundle[key], ids)] == bundle
  {
    assert Given(bundle - {key}, key) == map[];
    MergeFacts(map[], bundle[key], ids);
    assert Merge(map[], bundle[key], ids) == bundle[key];
    RestoreEntry(bundle, key);
  }

  /** Putting an entry back after removing it restores the map. */
  lemma RestoreEntry<K, V>(m: map<K, V>, k: K)
    requires k in m
    ensures (m - {k})[k := m[k]] == m
  {
  }

  // ---------------------------------------------------------------------------------------
  // Question and pillar cursors

  /**
   * NEXT_QUESTION moves to the next question, else to the next pillar's intro, else past the last
   * pillar; nothing but the cursors changes.
   */
  lemma NextQuestionFacts(s: AppState)
    requires s.currentPillarIndex < |Active(s)|
    ensures var t := Reduce(s, NextQuestion);
      var q, pi, n := s.currentQuestionIndex, s.currentPillarIndex, |Active(s)|;
      && (q < QuestionsPerPillar - 1 ==> t.currentQuestionIndex == q + 1 && t.currentPillarIndex == pi)
      && (q >= QuestionsPerPillar - 1 && pi + 1 < n ==> t.currentPillarIndex == pi + 1 && t.currentQuestionIndex == -1)
      && (q >= QuestionsPerPillar - 1 && pi + 1 == n ==> t.currentPillarIndex == n && t.currentQuestionIndex == q)
      && t == s.(currentPillarIndex := t.currentPillarIndex, currentQuestionIndex := t.currentQuestionIndex)
  {
  }

  /**
   * PREV_QUESTION moves to the previous question, else to the last question of the previous
   * pillar, and at the first pillar's first question (or its intro) changes nothing.
   */
  lemma PrevQuestionFacts(s: AppState)
    requires Defined(s, PrevQuestion)
    ensures var t := Reduce(s, PrevQuestion);
      var q, pi := s.currentQuestionIndex, s.currentPillarIndex;
      && (q > 0 ==> t.currentQuestionIndex == q - 1 && t.currentPillarIndex == pi)
      && (q <= 0 && pi > 0 ==> t.currentPillarIndex == pi - 1 && t.currentQuestionIndex == QuestionsPerPillar - 1)
      && (q <= 0 && pi == 0 <==> t == s)
      && t == s.(currentPillarIndex := t.currentPillarIndex, currentQuestionIndex := t.currentQuestionIndex)
  {
  }

  /** Within the cursor invariant, PREV_QUESTION undoes NEXT_QUESTION from a question before the last. */
  lemma PrevUndoesNext(s: AppState)
    requires CursorsOk(s) && s.currentPillarIndex < |Active(s)|
    requires 0 <= s.currentQuestionIndex < QuestionsPerPillar - 1
    ensures Reduce(Reduce(s, NextQuestion), PrevQuestion) == s
  {
  }

  // ---------------------------------------------------------------------------------------
  // Role hand-off

  /** A role's position in the successor chain owner, client1, client2, client3. */
  function ChainPosition(r: Role): nat
  {
    match r
    case Owner => 0
    case Client1 => 1
    case Client2 => 2
    case Client3 => 3
  }

  /**
   * Each successor sits one position further along a chain of four roles, so the chain has no
   * cycle and ends after at most three steps, at client 3, the only role without a successor.
   */
  lemma SuccessorChain(r: Role)
    ensures ChainPosition(r) <= 3
    ensures NextRole(r).None? <==> r == Client3
    ensures NextRole(r).Some? ==> ChainPosition(NextRole(r).value) == ChainPosition(r) + 1
  {
  }

  /**
   * ADD_CLIENT does nothing without a current role or at client 3; otherwise it moves to the
   * successor at the first pillar's intro, keeps the stored role sequence and the answers, and
   * sets the role index to the successor's position in the sequence extended by it.
   */
  lemma AddClientFacts(s: AppState)
    ensures var t := Reduce(s, AddClient);
      && (s.currentRole.None? || s.currentRole == Some(Client3) ==> t == s)
      && (s.currentRole.Some? && s.currentRole != Some(Client3) ==>
            var next := NextRole(s.currentRole.value).value;
            && t.currentRole == Some(next)
            && t.currentPillarIndex == 0 && t.currentQuestionIndex == -1
            && t.rolesSequence == s.rolesSequence && t.answers == s.answers
            && (next in s.rolesSequence ==> t.currentRoleIndex < |s.rolesSequence| && s.rolesSequence[t.currentRoleIndex] == next)
            && (next !in s.rolesSequence ==> t.currentRoleIndex == |s.rolesSequence|)
            && t == s.(currentRole := t.currentRole, currentRoleIndex := t.currentRoleIndex,
                       currentPillarIndex := 0, currentQuestionIndex := -1))
  {
    if s.currentRole.Some? && s.currentRole != Some(Client3) {
      var next := NextRole(s.currentRole.value).value;
      if next !in s.rolesSequence {
        var extended := s.rolesSequence + [next];
        var i := IndexOf(extended, next);
        assert extended[|s.rolesSequence|] == next;
        assert forall j :: 0 <= j < |s.rolesSequence| ==> extended[j] == s.rolesSequence[j];
      }
    }
  }

  /**
   * The extended sequence is never stored: after starting with the owner and adding a client,
   * the role index points one past the stored sequence, which still lists only the owner.
   */
  lemma AddClientDropsSequence(s: AppState, pillars: set<Pillar>)
    ensures var t := Reduce(Reduce(s, StartFlow(Some(MyBrand), Some(Full), pillars)), AddClient);
      t.rolesSequence == [Owner] && t.currentRole == Some(Client1) && t.currentRoleIndex == 1
  {
    var started := Reduce(s, StartFlow(Some(MyBrand), Some(Full), pillars));
    AddClientFacts(started);
  }

  // ---------------------------------------------------------------------------------------
  // Summary cursors

  /** ENTER_SUMMARY opens the summary at the first pillar's card. */
  lemma EnterSummaryFacts(s: AppState)
    ensures var t := Reduce(s, EnterSummary);
      t.mode == SummaryMode && t.summary == SummaryCursor(Some(PillarStage), 0)
      && t == s.(mode := SummaryMode, summary := t.summary)
  {
  }

  /**
   * NEXT_PILLAR_SUMMARY moves to the next pillar's card while there is one, and otherwise to the
   * overall stage at index 0; it never moves to the pillar GHI stage.
   */
  lemma NextPillarSummaryFacts(s: AppState)
    ensures var t := Reduce(s, NextPillarSummary);
      var i := s.summary.pillarIndex;
      && (i + 1 < |Active(s)| ==> t.summary == SummaryCursor(Some(PillarStage), i + 1))
      && (i + 1 >= |Active(s)| ==> t.summary == SummaryCursor(Some(OverallStage), 0))
      && t.summary.stage != Some(PillarGhiStage)
      && t == s.(summary := t.summary)
  {
  }

  /** PREV_PILLAR_SUMMARY is a no-op at index 0 and otherwise moves back one pillar's card. */
  lemma PrevPillarSummaryFacts(s: AppState)
    ensures var t := Reduce(s, PrevPillarSummary);
      var i := s.summary.pillarIndex;
      && (i == 0 ==> t == s)
      && (i > 0 ==> t == s.(summary := SummaryCursor(Some(PillarStage), i - 1)))
  {
  }

  /** Stepping forward then back between pillar cards returns to the same card. */
  lemma PillarSummaryRoundTrip(s: AppState)
    requires s.summary.pillarIndex + 1 < |Active(s)| && s.summary.stage == Some(PillarStage)
    ensures Reduce(Reduce(s, NextPillarSummary), PrevPillarSummary) == s
  {
  }

  /** SET_SUMMARY_STAGE changes only the stage; RESTART returns the initial state from anywhere. */
  lemma SummaryStageAndRestart(s: AppState, stage: Option<Stage>)
    ensures Reduce(s, SetSummaryStage(stage)).summary == SummaryCursor(stage, s.summary.pillarIndex)
    ensures Reduce(s, SetSummaryStage(stage)) == s.(summary := Reduce(s, SetSummaryStage(stage)).summary)
    ensures Reduce(s, Restart) == InitialState
  {
  }
}
