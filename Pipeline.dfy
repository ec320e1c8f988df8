/**
 * The pipeline: intake, classification, decision, and, only when the
 * decision approves, reply generation and supervision.
 */
module Pipeline {
  import opened Text
  import opened Optional
  import Intake
  import Classification
  import Decision
  import Reply
  import Supervisor

  /** The dictionary `run` returns; `reply` and `supervisor` are `None` unless the decision approved. */
  datatype TriageResult = TriageResult(
    intake: Intake.IntakeResult,
    classification: Classification.Classification,
    decision: Decision.DecisionResult,
    reply: Option<Reply.Reply>,
    supervisor: Option<Supervisor.Verdict>)

  /** The decision input built from a classification: every key is present, so no default is used. */
  function DecisionInputOf(c: Classification.Classification): (d: Decision.DecisionInput)
    ensures d.category == Some(c.category) && d.urgency == Some(c.urgency)
    ensures d.sentiment == Some(c.sentiment) && d.needsEscalation == Some(c.needsEscalation)
  {
    Decision.DecisionInput(Some(c.category), Some(c.urgency), Some(c.sentiment), Some(c.needsEscalation))
  }

  /** Steps three and four of `run`, given the intake and the classification. */
  function Route(intake: Intake.IntakeResult, c: Classification.Classification): (r: TriageResult)
    ensures r.intake == intake && r.classification == c
    ensures r.decision == Decision.Decide(DecisionInputOf(c))
    ensures r.reply.Some? <==> r.decision.finalAction == "approve"
    ensures r.supervisor.Some? <==> r.reply.Some?
    ensures r.reply.Some? ==> r.reply.value == Reply.GenerateReply(c)
    ensures r.supervisor.Some? ==> r.supervisor.value == Supervisor.EvaluateReply(c, Reply.GenerateReply(c))
  {
    var decision := Decision.Decide(DecisionInputOf(c));
    if decision.finalAction == "approve" then
      var reply := Reply.GenerateReply(c);
      TriageResult(intake, c, decision, Some(reply), Some(Supervisor.EvaluateReply(c, reply)))
    else
      TriageResult(intake, c, decision, None, None)
  }

  /** `c` is what the classifier computes for the cleaned email. */
  predicate ClassifiedFrom(c: Classification.Classification, email: Intake.IntakeResult) {
    && c.category == Classification.DetectCategory(email.cleanBody)
    && c.sentiment == Classification.DetectSentiment(email.cleanBody)
    && c.urgency == Classification.DetectUrgency(email.cleanBody)
    && c.threadStatus == email.threadStatus
    && c.needsEscalation == Classification.CheckEscalation(email.cleanBody, c.sentiment)
  }

  class EmailSupportPipeline {
    /** The classification agent, whose sender memory persists across runs. */
    const classifier: Classification.Classifier

    /** `EmailSupportPipeline()`: the stateless agents need no fields; the classifier starts with empty memory. */
    constructor ()
      ensures fresh(classifier) && classifier.memory == map[]
    {
      classifier := new Classification.Classifier(None);
    }

    /** `run(subject, body, sender)`. */
    method Run(subject: String, body: String, sender: String := "unknown") returns (r: TriageResult)
      modifies classifier
      ensures r.intake == Intake.ProcessEmail(subject, body)
      ensures ClassifiedFrom(r.classification, r.intake)
      ensures r == Route(r.intake, r.classification)
      ensures classifier.memory == Classification.Remember(old(classifier.memory), sender, r.classification.category, r.classification.sentiment)
      ensures r.classification.memoryUpdate == classifier.memory[sender]
    {
      var intake := Intake.ProcessEmail(subject, body);
      var c := classifier.Process(intake, sender);
      var decisionInput := DecisionInputOf(c);
      var decision := Decision.Decide(decisionInput);
      var reply: Option<Reply.Reply> := None;
      var verdict: Option<Supervisor.Verdict> := None;
      if decision.finalAction == "approve" {
        var generated := Reply.GenerateReply(c);
        reply := Some(generated);
        verdict := Some(Supervisor.EvaluateReply(c, generated));
      }
      r := TriageResult(intake, c, decision, reply, verdict);
    }
  }

  // ---------------------------------------------------------------------------
  // Properties of a run
  // ---------------------------------------------------------------------------

  lemma CategoriesAreLower(category: String)
    requires category in Classification.PossibleCategories
    ensures Lower(category) == category
  {
    assert Lower("billing") == "billing";
    assert Lower("technical_issue") == "technical_issue";
    assert Lower("refund") == "refund";
    assert Lower("complaint") == "complaint";
    assert Lower("general_inquiry") == "general_inquiry";
  }

  lemma SentimentsAreLower(sentiment: String)
    requires sentiment in Classification.Sentiments
    ensures Lower(sentiment) == sentiment
  {
    assert Lower("angry") == "angry";
    assert Lower("frustrated") == "frustrated";
    assert Lower("confused") == "confused";
    assert Lower("calm") == "calm";
    assert Lower("neutral") == "neutral";
    assert Lower("happy") == "happy";
  }

  /**
   * On the classifier's output the decision approves exactly when escalation
   * is not flagged and the category is not `complaint`: the sentiment rule is
   * already folded into the flag.
   */
  lemma ApproveIff(c: Classification.Classification, email: Intake.IntakeResult)
    requires ClassifiedFrom(c, email)
    ensures Decision.Decide(DecisionInputOf(c)).finalAction == "approve" <==> !c.needsEscalation && c.category != "complaint"
  {
    CategoriesAreLower(c.category);
    SentimentsAreLower(c.sentiment);
    var d := DecisionInputOf(c);
    assert Decision.CategoryOf(d) == c.category;
    assert Decision.SentimentOf(d) == c.sentiment;
  }

  /** An escalated run stops after the decision: no reply is drafted and nothing is supervised. */
  lemma EscalatedRunStops(r: TriageResult)
    requires r == Route(r.intake, r.classification)
    requires r.decision.finalAction == "escalate_to_human"
    ensures r.reply == None && r.supervisor == None
  {
  }

  /** A complaint is never answered automatically. */
  lemma ComplaintNeverAutoReplied(r: TriageResult)
    requires r == Route(r.intake, r.classification) && ClassifiedFrom(r.classification, r.intake)
    requires r.classification.category == "complaint"
    ensures r.reply == None && r.supervisor == None
  {
    ApproveIff(r.classification, r.intake);
  }

  /**
   * A drafted reply never asks for human review and is always the category's
   * template: the holding messages are unreachable from a run.
   */
  lemma AutoReplyIsTemplate(r: TriageResult)
    requires r == Route(r.intake, r.classification) && ClassifiedFrom(r.classification, r.intake)
    requires r.reply.Some?
    ensures !r.reply.value.requiresHumanReview
    ensures r.reply.value.replyText == Reply.NormalReply(r.classification.category)
  {
    ApproveIff(r.classification, r.intake);
  }

  /**
   * The supervisor's verdict in a run is fixed by the category: technical
   * and general-inquiry replies are approved, billing and refund replies are
   * escalated for naming "AI", and a rewrite is never asked for.
   */
  lemma SupervisedVerdictByCategory(r: TriageResult)
    requires r == Route(r.intake, r.classification) && ClassifiedFrom(r.classification, r.intake)
    requires r.supervisor.Some?
    ensures var c := r.classification; var v := r.supervisor.value;
      && (c.category in {"technical_issue", "general_inquiry"} ==> v.action == "approve" && v.finalReply == Reply.NormalReply(c.category))
      && (c.category in {"billing", "refund"} ==> v == Supervisor.Reject(Supervisor.ForbiddenReason("AI"), true))
      && v.action != "rewrite"
  {
    var c := r.classification;
    ApproveIff(c, r.intake);
    Supervisor.TemplateVerdict(c);
  }

  /** Two memory updates for one sender (one per `Run`) add two to its count and leave every other sender's record alone. */
  lemma RunsAccumulate(m: Classification.Memory, sender: String, other: String, c1: String, s1: String, c2: String, s2: String)
    requires other != sender && other in m
    ensures var m' := Classification.Remember(Classification.Remember(m, sender, c1, s1), sender, c2, s2);
      && Classification.MessageCount(m', sender) == Classification.MessageCount(m, sender) + 2
      && m'[sender].lastCategory == Some(c2) && m'[other] == m[other]
  {
  }
}
