/**
 * components/QuestionCard.tsx together with the auto-advance timer that FlowCard owns and passes
 * down: answering dispatches SET_ANSWER, clears the pending timer held in the shared ref and
 * schedules a new one that dispatches NEXT_QUESTION when it fires; unmounting the card clears
 * the timer held in the ref. The card stays mounted while the flow moves from one question to
 * another and unmounts when the flow shows anything else.
 */
module QuestionCard {

  import opened Wrappers
  import opened QpsData
  import opened Scoring
  import opened AppContext
  import opened FlowCard

  /** The flow shows a question, so the card is mounted. */
  predicate Shown(s: AppState)
  {
    Render(s).view.QuestionView?
  }

  /** The phrasing of the question text: `mapRoleToPerspective(currentRole!)`, a missing role reading as a client. */
  function Phrasing(role: Option<Role>): Perspective
  {
    if role.Some? then MapRoleToPerspective(role.value) else ClientPhrasing
  }

  /** The answer shown as selected for `qid` of pillar `key`: the current role's stored answer, if any. */
  function Existing(s: AppState, key: Pillar, qid: string): Option<Answer>
  {
    if s.currentRole.None? then None
    else
      var entry := Given(s.answers.Of(s.currentRole.value), key);
      if qid in entry then Some(entry[qid]) else None
  }

  /** The Back button is disabled on the first question of the first pillar. */
  predicate BackDisabled(s: AppState)
  {
    s.currentQuestionIndex == 0 && s.currentPillarIndex == 0
  }

  /** The progress line: pillar number of the number selected, question number of five. */
  datatype Progress = Progress(pillarNumber: int, totalPillars: nat, questionNumber: int, totalQuestions: nat)

  function ProgressOf(s: AppState): Progress
  {
    Progress(s.currentPillarIndex + 1, |s.pillars|, s.currentQuestionIndex + 1, QuestionsPerPillar)
  }

  /** The owner reads the first-person phrasing; every client, and a missing role, the client phrasing. */
  lemma PhrasingFacts(role: Option<Role>)
    ensures Phrasing(role) == YouPhrasing <==> role == Some(Owner)
  {
  }

  /**
   * After SET_ANSWER the answered question shows the new answer as selected and every other
   * question shows what it showed before.
   */
  lemma ExistingAfterAnswer(s: AppState, key: Pillar, qid: string, a: Answer, k: Pillar, q: string)
    requires s.currentRole.Some?
    ensures Existing(Reduce(s, SetAnswer(key, qid, a)), k, q) ==
      if k == key && q == qid then Some(a) else Existing(s, k, q)
  {
    SetAnswerFacts(s, key, qid, a);
  }

  /** SET_ANSWER changes only the answers, so the flow keeps showing the same question. */
  lemma AnswerKeepsView(s: AppState, key: Pillar, qid: string, a: Answer)
    requires s.currentRole.Some?
    ensures Render(Reduce(s, SetAnswer(key, qid, a))) == Render(s)
  {
  }

  /** On a shown question Back is disabled exactly when PREV_QUESTION would leave the state unchanged. */
  lemma BackDisabledIffNoop(s: AppState)
    requires Shown(s)
    ensures Defined(s, PrevQuestion)
    ensures BackDisabled(s) <==> Reduce(s, PrevQuestion) == s
  {
    RenderCases(s);
  }

  /** On a shown question both counters are 1-based and within their totals, the pillar total being the number selected. */
  lemma ProgressBounds(s: AppState)
    requires Shown(s)
    ensures var p := ProgressOf(s);
      && 1 <= p.pillarNumber <= p.totalPillars && p.totalPillars == |Active(s)|
      && 1 <= p.questionNumber <= p.totalQuestions == QuestionsPerPillar
  {
    RenderCases(s);
    ActiveCount(s.pillars);
  }

  /**
   * The flow with its question card. `slot` is the shared timer ref, `live` the timers that are
   * scheduled and neither fired nor cleared, `nextHandle` the next handle `setTimeout` returns.
   */
  class Session {
    var state: AppState
    var slot: Option<nat>
    var live: set<nat>
    var nextHandle: nat

    /**
     * The cursors are in range, every live timer is the one in the ref, the ref holds an
     * already issued handle, and a timer is live only while the card is mounted.
     */
    predicate Valid()
      reads this
    {
      && CursorsOk(state)
      && (forall h :: h in live ==> slot == Some(h))
      && (slot.Some? ==> slot.value < nextHandle)
      && (live != {} ==> Shown(state))
    }

    constructor(s: AppState)
      requires CursorsOk(s)
      ensures state == s && slot == None && live == {} && Valid()
    {
      state := s;
      slot := None;
      live := {};
      nextHandle := 0;
    }

    /** The unmount cleanup when the flow no longer shows a question: clear the timer in the ref. */
    method Settle()
      requires CursorsOk(state)
      requires forall h :: h in live ==> slot == Some(h)
      requires slot.Some? ==> slot.value < nextHandle
      modifies this
      ensures Valid()
      ensures state == old(state) && slot == old(slot) && nextHandle == old(nextHandle)
      ensures live == if Shown(state) then old(live) else {}
    {
      if !Shown(state) && slot.Some? {
        live := live - {slot.value};
      }
      assert !Shown(state) ==> live == {};
    }

    /**
     * handleAnswer: record the answer for the shown question, clear the pending timer and
     * schedule a fresh one, which is then the only live timer.
     */
    method Answer(a: Answer) returns (handle: nat)
      requires Valid() && Shown(state) && state.currentRole.Some?
      modifies this
      ensures Valid()
      ensures var v := Render(old(state)).view;
        state == Reduce(old(state), SetAnswer(v.key, v.questionId, a))
      ensures Render(state) == Render(old(state))
      ensures slot == Some(handle) && live == {handle}
      ensures old(slot).Some? ==> handle != old(slot).value
    {
      var v := Render(state).view;
      AnswerKeepsView(state, v.key, v.questionId, a);
      CursorsPreserved(state, SetAnswer(v.key, v.questionId, a));
      state := Reduce(state, SetAnswer(v.key, v.questionId, a));
      if slot.Some? {
        live := live - {slot.value};
      }
      handle := nextHandle;
      nextHandle := nextHandle + 1;
      slot := Some(handle);
      live := live + {handle};
      assert live == {handle};
    }

    /** A live timer fires: NEXT_QUESTION is dispatched and no timer is left live. */
    method Fire(h: nat)
      requires Valid() && h in live
      modifies this
      ensures Valid()
      ensures old(Defined(state, NextQuestion)) && state == Reduce(old(state), NextQuestion)
      ensures slot == old(slot) && live == {}
    {
      RenderCases(state);
      CursorsPreserved(state, NextQuestion);
      state := Reduce(state, NextQuestion);
      live := live - {h};
      assert live == {};
    }

    /** The Next button: NEXT_QUESTION, and the unmount cleanup if the flow leaves the questions. */
    method Next()
      requires Valid() && Shown(state)
      modifies this
      ensures Valid()
      ensures old(Defined(state, NextQuestion)) && state == Reduce(old(state), NextQuestion)
      ensures slot == old(slot)
      ensures live == if Shown(state) then old(live) else {}
    {
      RenderCases(state);
      CursorsPreserved(state, NextQuestion);
      state := Reduce(state, NextQuestion);
      Settle();
    }

    /**
     * The Back button: nothing when disabled, otherwise PREV_QUESTION and the unmount cleanup
     * if the flow leaves the questions.
     */
    method Back() returns (pressed: bool)
      requires Valid() && Shown(state)
      modifies this
      ensures Valid()
      ensures pressed <==> !BackDisabled(old(state))
      ensures old(Defined(state, PrevQuestion))
      ensures !pressed ==> state == old(state) && live == old(live)
      ensures pressed ==> state == Reduce(old(state), PrevQuestion) && live == (if Shown(state) then old(live) else {})
      ensures slot == old(slot)
    {
      BackDisabledIffNoop(state);
      pressed := !BackDisabled(state);
      if pressed {
        CursorsPreserved(state, PrevQuestion);
        state := Reduce(state, PrevQuestion);
        Settle();
      }
    }

    /** The Reset button: RESET_PILLAR returns to the pillar's intro, which unmounts the card and clears its timer. */
    method Reset()
      requires Valid() && Shown(state) && state.currentRole.Some?
      modifies this
      ensures Valid()
      ensures state == Reduce(old(state), ResetPillar)
      ensures Render(state).view.PillarIntroView? && live == {} && slot == old(slot)
    {
      RenderCases(state);
      CursorsPreserved(state, ResetPillar);
      state := Reduce(state, ResetPillar);
      RenderCases(state);
      Settle();
    }
  }

  /**
   * A pending advance survives a manual Next: answering a question and pressing Next before the
   * delay elapses moves the cursor two questions once the timer fires.
   */
  method AnswerThenNextAdvancesTwice(s: AppState, a: Answer) returns (t: AppState)
    requires CursorsOk(s) && Shown(s) && s.currentRole.Some?
    requires s.currentQuestionIndex < QuestionsPerPillar - 2
    ensures t.currentQuestionIndex == s.currentQuestionIndex + 2
    ensures t.currentPillarIndex == s.currentPillarIndex
    ensures var v := Render(s).view; t.answers == Reduce(s, SetAnswer(v.key, v.questionId, a)).answers
  {
    var session := new Session(s);
    var h := session.Answer(a);
    session.Next();
    RenderCases(session.state);
    session.Fire(h);
    t := session.state;
  }

  /**
   * Two answers in quick succession advance once: the second clears the timer of the first,
   * and the cursor moves to the next question when the remaining timer fires.
   */
  method TwoAnswersAdvanceOnce(s: AppState, a: Answer, b: Answer) returns (t: AppState, firstStillLive: bool)
    requires CursorsOk(s) && Shown(s) && s.currentRole.Some?
    ensures !firstStillLive
    ensures s.currentQuestionIndex < QuestionsPerPillar - 1 ==> t.currentQuestionIndex == s.currentQuestionIndex + 1
    ensures var v := Render(s).view; Existing(t, v.key, v.questionId) == Some(b)
  {
    var session := new Session(s);
    var v := Render(s).view;
    var h1 := session.Answer(a);
    var h2 := session.Answer(b);
    firstStillLive := h1 in session.live;
    ExistingAfterAnswer(s, v.key, v.questionId, a, v.key, v.questionId);
    var s1 := Reduce(s, SetAnswer(v.key, v.questionId, a));
    ExistingAfterAnswer(s1, v.key, v.questionId, b, v.key, v.questionId);
    var s2 := session.state;
    session.Fire(h2);
    t := session.state;
    assert t.answers == s2.answers;
  }
}
