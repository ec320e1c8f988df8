/**
 * The reply agent: a holding message when escalation is flagged, otherwise
 * the category's fixed template, with a tone chosen from the sentiment.
 *
 * The longer messages are written as concatenations of short literals; each
 * concatenation spells exactly the source's literal.
 */
module Reply {
  import opened Text
  import Classification

  // ---------------------------------------------------------------------------
  // generate_safe_holding_message
  // ---------------------------------------------------------------------------

  const HoldingEmpathetic: String :=
    "I understand how frustrating " + "this situation must be. " + "I've escalated your case to " +
    "a specialist who will review " + "it as a priority."

  const HoldingNeutral: String :=
    "Thanks for your patience. " + "I've forwarded your case to " + "our specialist team for " + "further review."

  function IsNegative(sentiment: String): bool {
    sentiment in ["angry", "frustrated"]
  }

  /** `generate_safe_holding_message(sentiment)`. */
  function HoldingMessage(sentiment: String): (r: String)
    ensures r in {HoldingEmpathetic, HoldingNeutral}
    ensures r == HoldingEmpathetic <==> IsNegative(sentiment)
  {
    if IsNegative(sentiment) then HoldingEmpathetic else HoldingNeutral
  }

  // ---------------------------------------------------------------------------
  // generate_normal_reply
  // ---------------------------------------------------------------------------

  const BillingTemplate: String := "I\U{2019}ve checked your billing " + "details and I can help " + "clarify the recent changes."
  const TechnicalTemplate: String := "Thanks for reporting the issue." + " Let's walk through a few " + "troubleshooting steps."
  const RefundTemplate: String := "I can help you with your " + "refund request and explain " + "the next steps."
  const ComplaintTemplate: String := "Thanks for sharing your " + "feedback. I\U{2019}m here to help " + "resolve this."
  const InquiryTemplate: String := "Here\U{2019}s the information " + "you requested."
  const FallbackReply: String := "Thanks for contacting us."

  const Templates: map<String, String> := map[
    "billing" := BillingTemplate,
    "technical_issue" := TechnicalTemplate,
    "refund" := RefundTemplate,
    "complaint" := ComplaintTemplate,
    "general_inquiry" := InquiryTemplate
  ]

  /** `generate_normal_reply(category)`: the category's template, or the generic thanks. */
  function NormalReply(category: String): (r: String)
    ensures category in Templates ==> r == Templates[category]
    ensures category !in Templates ==> r == FallbackReply
  {
    if category in Templates then Templates[category] else FallbackReply
  }

  // ---------------------------------------------------------------------------
  // generate_reply
  // ---------------------------------------------------------------------------

  datatype Reply = Reply(replyText: String, tone: String, requiresHumanReview: bool, summaryForSupervisor: String)

  function Summary(category: String, tone: String): String {
    "Generated reply for category '" + category + "' with tone '" + tone + "'."
  }

  /** `generate_reply(classification, clean_email)`; the cleaned email is not consulted. */
  function GenerateReply(c: Classification.Classification): (r: Reply)
    ensures r.requiresHumanReview == c.needsEscalation
    ensures c.needsEscalation ==> r.replyText == HoldingMessage(c.sentiment)
    ensures !c.needsEscalation ==> r.replyText == NormalReply(c.category)
    ensures r.tone in {"empathetic", "professional", "friendly"}
    ensures r.tone == "empathetic" <==> IsNegative(c.sentiment)
    ensures r.tone == "friendly" <==> !c.needsEscalation && c.sentiment == "happy"
    ensures r.summaryForSupervisor == Summary(c.category, r.tone)
  {
    var category := c.category;
    var sentiment := c.sentiment;
    if c.needsEscalation then
      var tone := if IsNegative(sentiment) then "empathetic" else "professional";
      Reply(HoldingMessage(sentiment), tone, true, Summary(category, tone))
    else
      var tone := if IsNegative(sentiment) then "empathetic" else if sentiment in ["happy"] then "friendly" else "professional";
      Reply(NormalReply(category), tone, false, Summary(category, tone))
  }
}
