/**
 * The hand-off prompt of components/RolePrompt.tsx, shown when the brand itself has passed the
 * last pillar: invite the first client, offer the next client, or close the client scans.
 */
module RolePrompt {

  import opened Wrappers
  import opened QpsData
  import opened AppContext

  datatype Prompt =
    | InviteClient
    | AddAnother(next: Role)
    | AllComplete

  /** The prompt for the current role: the owner branch, the next-role branch, or the limit. */
  function PromptFor(s: AppState): Prompt
  {
    if s.currentRole == Some(Owner) then InviteClient
    else
      var nextRole := if s.currentRole.Some? then NextRole(s.currentRole.value) else None;
      if nextRole.Some? then AddAnother(nextRole.value) else AllComplete
  }

  /** The buttons of a prompt, as the actions they dispatch. */
  function Offered(p: Prompt): seq<Action>
  {
    match p
    case AllComplete => [EnterSummary]
    case _ => [EnterSummary, AddClient]
  }

  /** The step pill: "Owner" for the owner, otherwise the label of the current role, or "". */
  function StepPill(s: AppState): string
  {
    if s.currentRole == Some(Owner) then "Owner"
    else if s.currentRole.Some? then RoleLabel(s.currentRole.value)
    else ""
  }

  /**
   * The owner is invited to add client 1; clients 1 and 2 are offered their successor; client 3,
   * and a missing role, reach the limit.
   */
  lemma PromptCases(s: AppState)
    ensures PromptFor(s) == InviteClient <==> s.currentRole == Some(Owner)
    ensures PromptFor(s).AddAnother? <==> s.currentRole == Some(Client1) || s.currentRole == Some(Client2)
    ensures PromptFor(s).AddAnother? ==> Some(PromptFor(s).next) == NextRole(s.currentRole.value)
    ensures PromptFor(s) == AllComplete <==> s.currentRole.None? || s.currentRole == Some(Client3)
  {
  }

  /**
   * Every prompt offers to go to the results, and offers a further client exactly when
   * ADD_CLIENT would change the respondent.
   */
  lemma OfferedMatchesReducer(s: AppState)
    ensures EnterSummary in Offered(PromptFor(s))
    ensures AddClient in Offered(PromptFor(s)) <==> Reduce(s, AddClient).currentRole != s.currentRole
    ensures Reduce(s, EnterSummary).mode == SummaryMode
  {
    AddClientFacts(s);
    if s.currentRole.Some? {
      SuccessorChain(s.currentRole.value);
    }
  }

  /**
   * Accepting the offer hands over to the role the prompt names (client 1 from the owner),
   * one position further along the chain, at the first pillar's intro.
   */
  lemma AcceptHandsOver(s: AppState)
    requires PromptFor(s) != AllComplete
    ensures var t := Reduce(s, AddClient);
      && t.currentRole == Some(if PromptFor(s) == InviteClient then Client1 else PromptFor(s).next)
      && ChainPosition(t.currentRole.value) == ChainPosition(s.currentRole.value) + 1
      && t.currentPillarIndex == 0 && t.currentQuestionIndex == -1
  {
    AddClientFacts(s);
    SuccessorChain(s.currentRole.value);
  }

  /** From the owner, three accepted offers reach client 3 and the limit, and no fewer do. */
  lemma ThreeClientsThenLimit(s: AppState)
    requires s.currentRole == Some(Owner)
    ensures var t1 := Reduce(s, AddClient);
      var t2 := Reduce(t1, AddClient);
      var t3 := Reduce(t2, AddClient);
      && PromptFor(t1) == AddAnother(Client2)
      && PromptFor(t2) == AddAnother(Client3)
      && PromptFor(t3) == AllComplete && t3.currentRole == Some(Client3)
      && StepPill(t3) == RoleLabel(Client3)
  {
    var t1 := Reduce(s, AddClient);
    var t2 := Reduce(t1, AddClient);
    AddClientRole(s);
    AddClientRole(t1);
    AddClientRole(t2);
  }

  /** ADD_CLIENT moves the respondent to the next role of the chain, if there is one. */
  lemma AddClientRole(s: AppState)
    ensures Reduce(s, AddClient).currentRole ==
      if s.currentRole.Some? && NextRole(s.currentRole.value).Some? then NextRole(s.currentRole.value) else s.currentRole
  {
  }

  /** The pill names the owner as "Owner" and each client by its label; no two roles share one. */
  lemma StepPillDistinct(s: AppState, t: AppState)
    requires s.currentRole.Some? && t.currentRole.Some?
    ensures StepPill(s) == StepPill(t) <==> s.currentRole == t.currentRole
  {
  }
}
