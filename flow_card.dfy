/**
 * The routing of components/FlowCard.tsx: which screen the question flow shows for a state, and
 * the action it dispatches while rendering (ENTER_SUMMARY once a client respondent is past the
 * last pillar, NEXT_QUESTION when the question cursor has run past the pillar's questions).
 */
module FlowCard {

  import opened Wrappers
  import opened QpsData
  import opened Scoring
  import opened AppContext

  datatype View =
    | SummaryView
    | RolePromptView
    | PillarIntroView(key: Pillar, totalPillars: nat)
    | NoView
    | QuestionView(key: Pillar, index: nat, questionId: string, totalQuestions: nat)
      /** The question cursor is below the intro: the question looked up is undefined. */
    | MissingQuestion(key: Pillar)

  /** What the flow shows, and the action it dispatches while doing so. */
  datatype Frame = Frame(view: View, dispatched: Option<Action>)

  /** FlowCard */
  function Render(s: AppState): Frame
  {
    if s.mode == SummaryMode then Frame(SummaryView, None)
    else
      var active := Active(s);
      if s.currentPillarIndex >= |active| then
        if s.initialWho == Some(MyBrand) then Frame(RolePromptView, None)
        else Frame(SummaryView, Some(EnterSummary))
      else
        var key := active[s.currentPillarIndex];
        var q := s.currentQuestionIndex;
        if q == -1 then Frame(PillarIntroView(key, |active|), None)
        else if q >= QuestionsPerPillar then Frame(NoView, Some(NextQuestion))
        else if q < -1 then Frame(MissingQuestion(key), None)
        else Frame(QuestionView(key, q, QuestionIds(key)[q], QuestionsPerPillar), None)
  }

  /**
   * Each screen is shown exactly under its condition: the summary in summary mode or when a
   * client respondent has passed the last pillar; the role prompt when the brand itself has; the
   * intro of the pillar under the cursor at question -1; the question under the cursor for
   * 0..4; nothing (while advancing) past question 4.
   */
  lemma RenderCases(s: AppState)
    ensures var f := Render(s);
      var inFlow := s.mode != SummaryMode && s.currentPillarIndex < |Active(s)|;
      && (f.view == SummaryView <==>
            s.mode == SummaryMode || (s.currentPillarIndex >= |Active(s)| && s.initialWho != Some(MyBrand)))
      && (f.view == RolePromptView <==>
            s.mode != SummaryMode && s.currentPillarIndex >= |Active(s)| && s.initialWho == Some(MyBrand))
      && (f.view.PillarIntroView? <==> inFlow && s.currentQuestionIndex == -1)
      && (f.view.NoView? <==> inFlow && s.currentQuestionIndex >= QuestionsPerPillar)
      && (f.view.QuestionView? <==> inFlow && 0 <= s.currentQuestionIndex < QuestionsPerPillar)
      && (f.view.MissingQuestion? <==> inFlow && s.currentQuestionIndex < -1)
      && (f.view.PillarIntroView? ==> f.view.key == Active(s)[s.currentPillarIndex] && f.view.totalPillars == |Active(s)|)
  {
  }

  /**
   * A question screen shows a selected pillar, the pillar under the cursor, and the question
   * whose position in that pillar is the question cursor, out of five.
   */
  lemma QuestionViewFacts(s: AppState)
    requires Render(s).view.QuestionView?
    ensures var v := Render(s).view;
      && v.key in s.pillars && s.currentPillarIndex < |Active(s)| && v.key == Active(s)[s.currentPillarIndex]
      && v.index == s.currentQuestionIndex && v.index < v.totalQuestions == |QuestionIds(v.key)|
      && v.questionId == QuestionIds(v.key)[v.index]
      && OwnerOf(v.questionId) == Some(v.key)
  {
    var v := Render(s).view;
    ActiveCount(s.pillars);
    var active := Active(s);
    assert active[s.currentPillarIndex] in active;
    QuestionIdShape(v.key, v.index);
    OwnerOfIsOwner(v.questionId, v.key);
  }

  /**
   * Rendering dispatches only ENTER_SUMMARY (a client respondent past the last pillar) or
   * NEXT_QUESTION (question cursor past the last question), and the reducer is defined on it.
   */
  lemma RenderDispatch(s: AppState)
    ensures var f := Render(s);
      && (f.dispatched == Some(EnterSummary) <==>
            s.mode != SummaryMode && s.currentPillarIndex >= |Active(s)| && s.initialWho != Some(MyBrand))
      && (f.dispatched == Some(NextQuestion) <==>
            s.mode != SummaryMode && s.currentPillarIndex < |Active(s)| && s.currentQuestionIndex >= QuestionsPerPillar)
      && (f.dispatched.Some? ==> Defined(s, f.dispatched.value))
  {
  }

  /** Within the cursor invariant the flow never advances by itself and never misses a question. */
  lemma RenderUnderCursors(s: AppState)
    requires CursorsOk(s)
    ensures Render(s).dispatched != Some(NextQuestion)
    ensures !Render(s).view.MissingQuestion?
  {
  }

  /**
   * The dispatches settle: after ENTER_SUMMARY the summary shows with nothing dispatched, and
   * after NEXT_QUESTION the flow shows the next pillar's intro, the role prompt or the summary,
   * dispatching at most one ENTER_SUMMARY.
   */
  lemma RenderSettles(s: AppState)
    requires Render(s).dispatched.Some?
    ensures var t := Reduce(s, Render(s).dispatched.value);
      && (Render(s).dispatched == Some(EnterSummary) ==> Render(t) == Frame(SummaryView, None))
      && (Render(s).dispatched == Some(NextQuestion) ==>
            && (Render(t).view.PillarIntroView? || Render(t).view == RolePromptView || Render(t).view == SummaryView)
            && (Render(t).dispatched.Some? ==>
                  Render(t).dispatched == Some(EnterSummary) && Render(Reduce(t, EnterSummary)) == Frame(SummaryView, None)))
  {
    RenderDispatch(s);
  }

  /**
   * A client respondent answering the last question of the last pillar and pressing Next lands
   * on the summary: the flow dispatches ENTER_SUMMARY rather than offering another client.
   */
  lemma ClientFinishGoesToSummary(s: AppState)
    requires s.mode == FlowMode && s.initialWho == Some(ClientWho)
    requires |Active(s)| >= 1 && s.currentPillarIndex == |Active(s)| - 1
    requires s.currentQuestionIndex == QuestionsPerPillar - 1
    ensures Render(Reduce(s, NextQuestion)) == Frame(SummaryView, Some(EnterSummary))
  {
  }

  /** The brand itself finishing the last pillar is offered the role prompt instead. */
  lemma OwnerFinishGoesToPrompt(s: AppState)
    requires s.mode == FlowMode && s.initialWho == Some(MyBrand)
    requires |Active(s)| >= 1 && s.currentPillarIndex == |Active(s)| - 1
    requires s.currentQuestionIndex == QuestionsPerPillar - 1
    ensures Render(Reduce(s, NextQuestion)) == Frame(RolePromptView, None)
  {
  }
}
