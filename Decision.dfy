/**
 * The decision agent: an ordered if/elif chain over the defaulted,
 * lower-cased classification that routes a message to the auto-reply
 * agent (`approve`) or to a person (`escalate_to_human`).
 */
module Decision {
  import opened Text
  import opened Optional

  /** `HIGH_RISK_CATEGORIES`; only `complaint` is a category the classifier produces. */
  const HighRiskCategories: set<String> := {"complaint", "cancellation", "legal", "regulatory"}

  /** The fields `decide` reads; an absent key and a `None` value are both `None`. */
  datatype DecisionInput = DecisionInput(
    category: Option<String>,
    urgency: Option<String>,
    sentiment: Option<String>,
    needsEscalation: Option<bool>)

  datatype DecisionResult = DecisionResult(finalAction: String, reason: String, confidence: String)

  /** Python's `value or default` on an optional string: `None` and `""` are falsy. */
  function OrDefault(value: Option<String>, default: String): (r: String)
    ensures value.Some? && value.value != [] ==> r == value.value
    ensures value.None? || value.value == [] ==> r == default
  {
    if value.Some? && value.value != [] then value.value else default
  }

  function CategoryOf(input: DecisionInput): String {
    Lower(OrDefault(input.category, "general_inquiry"))
  }

  function SentimentOf(input: DecisionInput): String {
    Lower(OrDefault(input.sentiment, "calm"))
  }

  function UrgencyOf(input: DecisionInput): String {
    Lower(OrDefault(input.urgency, "normal"))
  }

  /** `bool(decision_input.get("needs_escalation", False))`. */
  function FlagOf(input: DecisionInput): bool {
    input.needsEscalation.Some? && input.needsEscalation.value
  }

  const FlagReason: String := "Escalation flag from escalation/supervisor logic is true."
  const SafeReason: String := "Calm or low-risk email with no escalation flag. It is safe to handle this with the auto reply agent."

  function SentimentReason(sentiment: String): String {
    "Customer sentiment is '" + sentiment + "', which is high-risk."
  }

  function CategoryReason(category: String): String {
    "Email category '" + category + "' is considered high-risk."
  }

  /** `decide(decision_input)`; urgency is computed and never consulted. */
  function Decide(input: DecisionInput): (r: DecisionResult)
    ensures r.finalAction in {"approve", "escalate_to_human"}
    ensures r.confidence in {"high", "medium"}
    ensures r.finalAction == "approve" <==>
      !FlagOf(input) && SentimentOf(input) !in {"angry", "frustrated"} && CategoryOf(input) !in HighRiskCategories
    ensures r.reason in {FlagReason, SentimentReason(SentimentOf(input)), CategoryReason(CategoryOf(input)), SafeReason}
    ensures r.finalAction == "approve" ==> r.reason == SafeReason
  {
    var category := CategoryOf(input);
    var sentiment := SentimentOf(input);
    var needsEscalation := FlagOf(input);
    var urgency := UrgencyOf(input);
    if needsEscalation then DecisionResult("escalate_to_human", FlagReason, "high")
    else if sentiment in {"angry", "frustrated"} then DecisionResult("escalate_to_human", SentimentReason(sentiment), "high")
    else if category in HighRiskCategories then DecisionResult("escalate_to_human", CategoryReason(category), "medium")
    else DecisionResult("approve", SafeReason, if sentiment == "calm" then "high" else "medium")
  }

  /** Rule 1: the escalation flag alone decides, whatever the other fields say. */
  lemma FlagEscalates(input: DecisionInput)
    requires FlagOf(input)
    ensures Decide(input) == DecisionResult("escalate_to_human", FlagReason, "high")
  {
  }

  /** Rule 2: otherwise an angry or frustrated customer escalates with high confidence. */
  lemma NegativeSentimentEscalates(input: DecisionInput)
    requires !FlagOf(input) && SentimentOf(input) in {"angry", "frustrated"}
    ensures Decide(input).finalAction == "escalate_to_human" && Decide(input).confidence == "high"
    ensures Decide(input).reason == SentimentReason(SentimentOf(input))
  {
  }

  /** Rule 3: otherwise a high-risk category escalates with medium confidence. */
  lemma HighRiskEscalates(input: DecisionInput)
    requires !FlagOf(input) && SentimentOf(input) !in {"angry", "frustrated"} && CategoryOf(input) in HighRiskCategories
    ensures Decide(input).finalAction == "escalate_to_human" && Decide(input).confidence == "medium"
    ensures Decide(input).reason == CategoryReason(CategoryOf(input))
  {
  }

  /** The classifier's `complaint` always escalates, with or without the flag. */
  lemma ComplaintEscalates(input: DecisionInput)
    requires input.category == Some("complaint")
    ensures Decide(input).finalAction == "escalate_to_human"
  {
    assert CategoryOf(input) == "complaint";
  }

  /** An approval is confident exactly when the (defaulted) sentiment is calm; "low" never occurs. */
  lemma ApprovalConfidence(input: DecisionInput)
    requires Decide(input).finalAction == "approve"
    ensures Decide(input).confidence == "high" <==> SentimentOf(input) == "calm"
    ensures Decide(input).reason == SafeReason
  {
  }

  /** Missing or empty sentiment and category read as `calm` and `general_inquiry`: a bare input is approved confidently. */
  lemma DefaultsApproveConfidently(input: DecisionInput)
    requires OrDefault(input.category, "general_inquiry") == "general_inquiry"
    requires OrDefault(input.sentiment, "calm") == "calm"
    requires !FlagOf(input)
    ensures Decide(input) == DecisionResult("approve", SafeReason, "high")
  {
    assert Lower("general_inquiry") == "general_inquiry";
    assert Lower("calm") == "calm";
  }

  /** Urgency never changes the decision. */
  lemma UrgencyIgnored(input: DecisionInput, urgency: Option<String>)
    ensures Decide(input.(urgency := urgency)) == Decide(input)
  {
  }
}
