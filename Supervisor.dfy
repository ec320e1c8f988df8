/**
 * The supervisor agent: a chain of short-circuit gates (escalation path,
 * tone, length, forbidden phrases) that approves a reply, asks for a
 * rewrite, or escalates it to a person.
 */
module Supervisor {
  import opened Text
  import opened Optional
  import Classification
  import Reply

  datatype MemoryNote = MemoryNote(qualityScore: int, lastInteractionSentiment: Option<String>)

  datatype Verdict = Verdict(action: String, finalReply: String, reason: String, needsHuman: bool, memoryUpdate: MemoryNote)

  /** `_approve(final_reply, sentiment)`. */
  function Approve(finalReply: String, sentiment: String): (v: Verdict)
    ensures v.action == "approve" && v.finalReply == finalReply && !v.needsHuman
    ensures v.reason == "Reply approved."
    ensures v.memoryUpdate == MemoryNote(5, Some(sentiment))
  {
    Verdict("approve", finalReply, "Reply approved.", false, MemoryNote(5, Some(sentiment)))
  }

  /** `_reject(reason, needs_human)`: a person is needed exactly when the action is an escalation. */
  function Reject(reason: String, needsHuman: bool): (v: Verdict)
    ensures v.action == (if needsHuman then "escalate_to_human" else "rewrite")
    ensures v.finalReply == [] && v.reason == reason && v.needsHuman == needsHuman
    ensures v.memoryUpdate == MemoryNote(2, None)
  {
    Verdict(if !needsHuman then "rewrite" else "escalate_to_human", "", reason, needsHuman, MemoryNote(2, None))
  }

  // ---------------------------------------------------------------------------
  // The gates
  // ---------------------------------------------------------------------------

  const ResolutionReason: String := "Reply gives full solution when escalation was required."
  const EscalationToneReason: String := "Tone must be empathetic for angry/frustrated customers."
  const NegativeToneReason: String := "Tone mismatch: angry/frustrated customers need empathy."
  const HappyToneReason: String := "Tone mismatch: happy customers should receive friendly tone."
  const LengthReason: String := "Reply length is outside acceptable range (3-5 sentences)."

  function ForbiddenReason(word: String): String {
    "Unsafe or inappropriate phrase detected: '" + word + "'"
  }

  const ForbiddenPhrases: seq<String> := ["guarantee", "legal responsibility", "we promise", "AI", "as an AI"]

  /** The gate-one phrases of the supervisor, with the typographic apostrophe U+2019. */
  const CheckedPhrase: String := "I\U{2019}ve checked"
  const HelpPhrase: String := "I can help you"

  /** Gate one's test, case-sensitive: the reply claims a resolution. */
  function ClaimsResolution(text: String): bool {
    Contains(text, CheckedPhrase) || Contains(text, HelpPhrase)
  }

  /** `len(reply_text.split("."))`. */
  function SentenceCount(text: String): nat {
    |Split(text, '.')|
  }

  /** The length gate passes; only `.` is counted. */
  function LengthOk(text: String): (ok: bool)
    ensures ok <==> 1 <= Count(text, '.') <= 5
  {
    SplitLength(text, '.');
    var n := SentenceCount(text);
    !(n < 2 || n > 6)
  }

  /** Index of the first forbidden phrase occurring, case-insensitively, or 5 if none. */
  function FirstForbidden(text: String): (k: nat)
    ensures k <= |ForbiddenPhrases|
    ensures forall j :: 0 <= j < k ==> !Contains(Lower(text), Lower(ForbiddenPhrases[j]))
    ensures k < |ForbiddenPhrases| ==> Contains(Lower(text), Lower(ForbiddenPhrases[k]))
  {
    FirstContained(Lower(text), LowerAll(ForbiddenPhrases))
  }

  /** `evaluate_reply(classification, reply)`. */
  function EvaluateReply(c: Classification.Classification, reply: Reply.Reply): (v: Verdict)
    ensures v.action in {"approve", "rewrite", "escalate_to_human"}
    ensures v.action == "approve" ==> v.finalReply == reply.replyText && !v.needsHuman && v.memoryUpdate == MemoryNote(5, Some(c.sentiment))
    ensures v.action != "approve" ==> v.finalReply == [] && v.memoryUpdate == MemoryNote(2, None)
    ensures v.action == "escalate_to_human" <==> v.needsHuman
    ensures v.action == "approve" ==> v == Approve(reply.replyText, c.sentiment)
  {
    var sentiment := c.sentiment;
    var text := reply.replyText;
    var tone := reply.tone;
    if c.needsEscalation then
      if ClaimsResolution(text) then Reject(ResolutionReason, true)
      else if Reply.IsNegative(sentiment) && tone != "empathetic" then Reject(EscalationToneReason, true)
      else Approve(text, sentiment)
    else if Reply.IsNegative(sentiment) && tone !in ["empathetic"] then Reject(NegativeToneReason, true)
    else if sentiment == "happy" && tone != "friendly" then Reject(HappyToneReason, false)
    else if !LengthOk(text) then Reject(LengthReason, false)
    else
      var k := FirstForbidden(text);
      if k < |ForbiddenPhrases| then Reject(ForbiddenReason(ForbiddenPhrases[k]), true)
      else Approve(text, sentiment)
  }

  // ---------------------------------------------------------------------------
  // Properties
  // ---------------------------------------------------------------------------

  /** The tone gates pass: negative customers get empathy, happy ones friendliness. */
  predicate ToneOk(sentiment: String, tone: String) {
    !(Reply.IsNegative(sentiment) && tone != "empathetic") && !(sentiment == "happy" && tone != "friendly")
  }

  /**
   * With escalation flagged only the resolution phrases and the tone for
   * negative customers are checked; every rejection goes to a person.
   */
  lemma EscalationPathVerdict(c: Classification.Classification, reply: Reply.Reply)
    requires c.needsEscalation
    ensures var v := EvaluateReply(c, reply);
      && (v.action == "approve" <==> !ClaimsResolution(reply.replyText) && !(Reply.IsNegative(c.sentiment) && reply.tone != "empathetic"))
      && (v.action != "approve" ==> v.action == "escalate_to_human")
      && (ClaimsResolution(reply.replyText) ==> v == Reject(ResolutionReason, true))
      && (!ClaimsResolution(reply.replyText) && Reply.IsNegative(c.sentiment) && reply.tone != "empathetic" ==>
            v == Reject(EscalationToneReason, true))
  {
  }

  /**
   * Without escalation a reply is approved exactly when the tone fits, it
   * holds one to five `.`, and no forbidden phrase occurs in any case.
   */
  lemma NormalPathApproval(c: Classification.Classification, reply: Reply.Reply)
    requires !c.needsEscalation
    ensures EvaluateReply(c, reply).action == "approve" <==>
      && ToneOk(c.sentiment, reply.tone)
      && 1 <= Count(reply.replyText, '.') <= 5
      && !SomeOccurs(Lower(reply.replyText), LowerAll(ForbiddenPhrases))
  {
    var k := FirstForbidden(reply.replyText);
    if k < |ForbiddenPhrases| {
      assert Contains(Lower(reply.replyText), LowerAll(ForbiddenPhrases)[k]);
    }
  }

  /** An approved reply on the normal path is never empty: it holds a `.`. */
  lemma NormalApprovalNonEmpty(c: Classification.Classification, reply: Reply.Reply)
    requires !c.needsEscalation && EvaluateReply(c, reply).action == "approve"
    ensures EvaluateReply(c, reply).finalReply != []
  {
    NormalPathApproval(c, reply);
  }

  /** On the escalation path even an empty reply is approved, with an empty final reply. */
  lemma EscalationApprovesEmptyReply(c: Classification.Classification)
    requires c.needsEscalation && !Reply.IsNegative(c.sentiment)
    ensures var v := EvaluateReply(c, Reply.Reply("", "professional", true, ""));
      v.action == "approve" && v.finalReply == []
  {
    assert !Contains("", CheckedPhrase) && !Contains("", HelpPhrase);
  }

  /** Gate order: a tone mismatch for a negative customer decides before length or content. */
  lemma ToneDecidesFirst(c: Classification.Classification, reply: Reply.Reply)
    requires !c.needsEscalation && Reply.IsNegative(c.sentiment) && reply.tone != "empathetic"
    ensures EvaluateReply(c, reply) == Reject(NegativeToneReason, true)
  {
  }

  /** Gate order: a happy customer answered in any tone but a friendly one gets a rewrite, before length or content. */
  lemma HappyToneRewrites(c: Classification.Classification, reply: Reply.Reply)
    requires !c.needsEscalation && c.sentiment == "happy" && reply.tone != "friendly"
    ensures EvaluateReply(c, reply) == Reject(HappyToneReason, false)
  {
  }

  /** A failed length gate is a rewrite, not an escalation, despite its "3-5 sentences" wording. */
  lemma LengthFailureRewrites(c: Classification.Classification, reply: Reply.Reply)
    requires !c.needsEscalation && ToneOk(c.sentiment, reply.tone)
    requires Count(reply.replyText, '.') == 0 || Count(reply.replyText, '.') > 5
    ensures EvaluateReply(c, reply) == Reject(LengthReason, false)
  {
  }

  /** The forbidden-phrase gate names the FIRST listed phrase that occurs. */
  lemma ForbiddenNamesFirst(c: Classification.Classification, reply: Reply.Reply)
    requires !c.needsEscalation && ToneOk(c.sentiment, reply.tone) && 1 <= Count(reply.replyText, '.') <= 5
    requires FirstForbidden(reply.replyText) < |ForbiddenPhrases|
    ensures EvaluateReply(c, reply) == Reject(ForbiddenReason(ForbiddenPhrases[FirstForbidden(reply.replyText)]), true)
  {
  }

  lemma LoweredForbidden()
    ensures LowerAll(ForbiddenPhrases) == ["guarantee", "legal responsibility", "we promise", "ai", "as an ai"]
    ensures Lower(ForbiddenPhrases[0]) == "guarantee" && Lower(ForbiddenPhrases[1]) == "legal responsibility"
    ensures Lower(ForbiddenPhrases[2]) == "we promise"
    ensures Lower(ForbiddenPhrases[3]) == "ai" && Lower(ForbiddenPhrases[4]) == "as an ai"
  {
    assert Lower(ForbiddenPhrases[3]) == "ai";
    assert Lower(ForbiddenPhrases[4]) == "as an ai";
    assert Lower(ForbiddenPhrases[0]) == "guarantee";
    assert Lower(ForbiddenPhrases[1]) == "legal responsibility";
    assert Lower(ForbiddenPhrases[2]) == "we promise";
  }

  /** "as an AI" holds "AI", which is listed first, so "as an AI" is never the phrase named. */
  lemma AsAnAiNeverNamed(text: String)
    ensures FirstForbidden(text) != 4
  {
    LoweredForbidden();
    var low := Lower(text);
    if Contains(low, "as an ai") {
      ContainsAt("as an ai", "ai", 6);
      ContainsTrans(low, "as an ai", "ai");
      assert Contains(low, Lower(ForbiddenPhrases[3]));
    }
  }

  /** "AI" matches inside ordinary words: any reply saying "details" or "explain" trips the list. */
  lemma AiInsideWords(text: String)
    requires Contains(text, "details") || Contains(text, "explain")
    ensures FirstForbidden(text) < |ForbiddenPhrases|
  {
    LoweredForbidden();
    var word := if Contains(text, "details") then "details" else "explain";
    ContainsAt("details", "ai", 3);
    ContainsAt("explain", "ai", 4);
    ContainsLower(text, word);
    ContainsTrans(Lower(text), word, "ai");
    assert Contains(Lower(text), LowerAll(ForbiddenPhrases)[3]);
  }

  /** The verdict reads neither the category, the urgency nor the reply's review flag. */
  lemma VerdictIgnoresUnusedFields(c: Classification.Classification, reply: Reply.Reply, c': Classification.Classification, reply': Reply.Reply)
    requires c.sentiment == c'.sentiment && c.needsEscalation == c'.needsEscalation
    requires reply.replyText == reply'.replyText && reply.tone == reply'.tone
    ensures EvaluateReply(c, reply) == EvaluateReply(c', reply')
  {
  }

  // ---------------------------------------------------------------------------
  // The supervisor on the reply agent's own templates
  // ---------------------------------------------------------------------------

  /** A lower-case letter absent, in both cases, from three pieces is absent from their lowered concatenation. */
  lemma LowerLacksChar(t: String, a: String, b: String, c: String, ch: char, up: char)
    requires t == a + b + c
    requires 'a' <= ch <= 'z' && up == (ch as int - 32) as char
    requires ch !in a && ch !in b && ch !in c
    requires up !in a && up !in b && up !in c
    ensures ch !in Lower(t)
  {
    LowerCharFrom(a + b + c, ch);
  }

  /**
   * Two lower-case letters never adjacent in three pieces nor across their
   * joints, whose capitals the pieces lack, are never adjacent in the
   * lowered concatenation.
   */
  lemma LowerLacksPair(t: String, a: String, b: String, c: String, x: char, y: char, upX: char, upY: char)
    requires t == a + b + c
    requires 'a' <= x <= 'z' && 'a' <= y <= 'z'
    requires upX == (x as int - 32) as char && upY == (y as int - 32) as char
    requires !HasPair(a, x, y) && !HasPair(b, x, y) && !HasPair(c, x, y)
    requires a != [] && b != [] && c != []
    requires !(a[|a| - 1] == x && b[0] == y) && !(b[|b| - 1] == x && c[0] == y)
    requires upX !in a && upX !in b && upX !in c
    requires upY !in a && upY !in b && upY !in c
    ensures !HasPair(Lower(t), x, y)
  {
    NoPairInConcat3(a, b, c, x, y);
    LowerPairFrom(a + b + c, x, y);
  }

  /** The billing template holds no "g" before "u" and no "e" before "g", in either case, and no "w". */
  lemma BillingPairs(t: String)
    requires t == Reply.BillingTemplate
    ensures !HasPair(Lower(t), 'g', 'u') && !HasPair(Lower(t), 'e', 'g') && 'w' !in Lower(t)
  {
    BillingLacksGu(t);
    BillingLacksEg(t);
    LowerLacksChar(t, "I\U{2019}ve checked your billing ", "details and I can help ", "clarify the recent changes.", 'w', 'W');
  }

  lemma BillingLacksGu(t: String)
    requires t == Reply.BillingTemplate
    ensures !HasPair(Lower(t), 'g', 'u')
  {
    LowerLacksPair(t, "I\U{2019}ve checked your billing ", "details and I can help ", "clarify the recent changes.", 'g', 'u', 'G', 'U');
  }

  lemma BillingLacksEg(t: String)
    requires t == Reply.BillingTemplate
    ensures !HasPair(Lower(t), 'e', 'g')
  {
    LowerLacksPair(t, "I\U{2019}ve checked your billing ", "details and I can help ", "clarify the recent changes.", 'e', 'g', 'E', 'G');
  }

  /** "details" makes the billing template trip "AI" after the first three phrases are passed over. */
  lemma BillingNamesAi(t: String)
    requires t == Reply.BillingTemplate
    ensures FirstForbidden(t) == 3
  {
    BillingPassesFirstThree(t);
    BillingSaysDetails(t);
    AiInsideWords(t);
    AsAnAiNeverNamed(t);
  }

  lemma BillingPassesFirstThree(t: String)
    requires t == Reply.BillingTemplate
    ensures forall j :: 0 <= j < 3 ==> !Contains(Lower(t), Lower(ForbiddenPhrases[j]))
  {
    BillingPairs(t);
    BillingPassesFirstThreeByLetters(t);
  }

  lemma BillingPassesFirstThreeByLetters(t: String)
    requires !HasPair(Lower(t), 'g', 'u') && !HasPair(Lower(t), 'e', 'g') && 'w' !in Lower(t)
    ensures forall j :: 0 <= j < 3 ==> !Contains(Lower(t), Lower(ForbiddenPhrases[j]))
  {
    LoweredForbidden();
    NotContainsByPair(Lower(t), Lower(ForbiddenPhrases[0]), 0);
    NotContainsByPair(Lower(t), Lower(ForbiddenPhrases[1]), 1);
    NotContainsByChar(Lower(t), Lower(ForbiddenPhrases[2]), 0);
  }


  lemma BillingSaysDetails(t: String)
    requires t == Reply.BillingTemplate
    ensures Contains(t, "details")
  {
    assert Contains("details and I can help ", "details");
    ContainsInConcat("I\U{2019}ve checked your billing ", "details and I can help ", "clarify the recent changes.", "details");
  }

  /** The refund template has no "g" and no "m" in either case. */
  lemma RefundChars(t: String)
    requires t == Reply.RefundTemplate
    ensures 'g' !in Lower(t) && 'm' !in Lower(t)
  {
    LowerLacksChar(t, "I can help you with your ", "refund request and explain ", "the next steps.", 'g', 'G');
    LowerLacksChar(t, "I can help you with your ", "refund request and explain ", "the next steps.", 'm', 'M');
  }

  /** "explain" makes the refund template trip "AI" after the first three phrases are passed over. */
  lemma RefundNamesAi(t: String)
    requires t == Reply.RefundTemplate
    ensures FirstForbidden(t) == 3
  {
    RefundPassesFirstThree(t);
    RefundSaysExplain(t);
    AiInsideWords(t);
    AsAnAiNeverNamed(t);
  }

  lemma RefundPassesFirstThree(t: String)
    requires t == Reply.RefundTemplate
    ensures forall j :: 0 <= j < 3 ==> !Contains(Lower(t), Lower(ForbiddenPhrases[j]))
  {
    RefundChars(t);
    RefundPassesFirstThreeByLetters(t);
  }

  lemma RefundPassesFirstThreeByLetters(t: String)
    requires 'g' !in Lower(t) && 'm' !in Lower(t)
    ensures forall j :: 0 <= j < 3 ==> !Contains(Lower(t), Lower(ForbiddenPhrases[j]))
  {
    LoweredForbidden();
    NotContainsByChar(Lower(t), Lower(ForbiddenPhrases[0]), 0);
    NotContainsByChar(Lower(t), Lower(ForbiddenPhrases[1]), 2);
    NotContainsByChar(Lower(t), Lower(ForbiddenPhrases[2]), 6);
  }


  lemma RefundSaysExplain(t: String)
    requires t == Reply.RefundTemplate
    ensures Contains(t, "explain")
  {
    ContainsAt("refund request and explain ", "explain", 19);
    ContainsInConcat("I can help you with your ", "refund request and explain ", "the next steps.", "explain");
  }

  lemma TechnicalPairs(t: String)
    requires t == Reply.TechnicalTemplate
    ensures !HasPair(Lower(t), 'g', 'u') && !HasPair(Lower(t), 'a', 'i')
    ensures 'y' !in Lower(t) && 'm' !in Lower(t)
  {
    TechnicalLacksGu(t);
    TechnicalLacksAi(t);
    TechnicalLacksChars(t);
  }

  lemma TechnicalLacksChars(t: String)
    requires t == Reply.TechnicalTemplate
    ensures 'y' !in Lower(t) && 'm' !in Lower(t)
  {
    TechnicalLacksY(t);
    LowerLacksChar(t, "Thanks for reporting the issue.", " Let's walk through a few ", "troubleshooting steps.", 'm', 'M');
  }

  lemma TechnicalLacksY(t: String)
    requires t == Reply.TechnicalTemplate
    ensures 'y' !in Lower(t)
  {
    LowerLacksChar(t, "Thanks for reporting the issue.", " Let's walk through a few ", "troubleshooting steps.", 'y', 'Y');
  }

  lemma TechnicalLacksGu(t: String)
    requires t == Reply.TechnicalTemplate
    ensures !HasPair(Lower(t), 'g', 'u')
  {
    LowerLacksPair(t, "Thanks for reporting the issue.", " Let's walk through a few ", "troubleshooting steps.", 'g', 'u', 'G', 'U');
  }

  lemma TechnicalLacksAi(t: String)
    requires t == Reply.TechnicalTemplate
    ensures !HasPair(Lower(t), 'a', 'i')
  {
    LowerLacksPair(t, "Thanks for reporting the issue.", " Let's walk through a few ", "troubleshooting steps.", 'a', 'i', 'A', 'I');
  }

  /** The technical template holds none of the forbidden phrases in any case. */
  lemma TechnicalIsClean(t: String)
    requires t == Reply.TechnicalTemplate
    ensures FirstForbidden(t) == |ForbiddenPhrases|
  {
    TechnicalPairs(t);
    TechnicalIsCleanByLetters(t);
  }

  lemma TechnicalIsCleanByLetters(t: String)
    requires !HasPair(Lower(t), 'g', 'u') && !HasPair(Lower(t), 'a', 'i') && 'y' !in Lower(t) && 'm' !in Lower(t)
    ensures FirstForbidden(t) == |ForbiddenPhrases|
  {
    LoweredForbidden();
    NotContainsByPair(Lower(t), Lower(ForbiddenPhrases[0]), 0);
    NotContainsByChar(Lower(t), Lower(ForbiddenPhrases[1]), 19);
    NotContainsByChar(Lower(t), Lower(ForbiddenPhrases[2]), 6);
    NotContainsByPair(Lower(t), Lower(ForbiddenPhrases[3]), 0);
    NotContainsByPair(Lower(t), Lower(ForbiddenPhrases[4]), 6);
  }


  lemma InquiryPairs(t: String)
    requires t == Reply.InquiryTemplate
    ensures !HasPair(Lower(t), 'a', 'i') && 'g' !in Lower(t) && 'w' !in Lower(t)
  {
    InquiryLacksAi(t);
    LowerLacksChar(t, "Here\U{2019}s the ", "information ", "you requested.", 'g', 'G');
    LowerLacksChar(t, "Here\U{2019}s the ", "information ", "you requested.", 'w', 'W');
  }

  lemma InquiryLacksAi(t: String)
    requires t == Reply.InquiryTemplate
    ensures !HasPair(Lower(t), 'a', 'i')
  {
    LowerLacksPair(t, "Here\U{2019}s the ", "information ", "you requested.", 'a', 'i', 'A', 'I');
  }

  /** The general-inquiry template holds none of the forbidden phrases in any case. */
  lemma InquiryIsClean(t: String)
    requires t == Reply.InquiryTemplate
    ensures FirstForbidden(t) == |ForbiddenPhrases|
  {
    InquiryPairs(t);
    InquiryIsCleanByLetters(t);
  }

  lemma InquiryIsCleanByLetters(t: String)
    requires !HasPair(Lower(t), 'a', 'i') && 'g' !in Lower(t) && 'w' !in Lower(t)
    ensures FirstForbidden(t) == |ForbiddenPhrases|
  {
    LoweredForbidden();
    NotContainsByChar(Lower(t), Lower(ForbiddenPhrases[0]), 0);
    NotContainsByChar(Lower(t), Lower(ForbiddenPhrases[1]), 2);
    NotContainsByChar(Lower(t), Lower(ForbiddenPhrases[2]), 0);
    NotContainsByPair(Lower(t), Lower(ForbiddenPhrases[3]), 0);
    NotContainsByPair(Lower(t), Lower(ForbiddenPhrases[4]), 6);
  }


  /** `ch` occurs in `p` at most once, and then as its last character. */
  predicate AtMostLast(p: String, ch: char) {
    ch !in p || (p != [] && p[|p| - 1] == ch && ch !in p[..|p| - 1])
  }

  lemma CountAtMostLast(p: String, ch: char)
    requires AtMostLast(p, ch)
    ensures Count(p, ch) == if ch in p then 1 else 0
  {
    if ch in p {
      CountLastOnly(p, ch);
    } else {
      CountAbsent(p, ch);
    }
  }

  /** Three pieces each holding `ch` at most at their end hold one `ch` per piece that ends in it. */
  lemma CountPieces(t: String, a: String, b: String, c: String, ch: char)
    requires t == a + b + c
    requires AtMostLast(a, ch) && AtMostLast(b, ch) && AtMostLast(c, ch)
    ensures Count(t, ch) == (if ch in a then 1 else 0) + (if ch in b then 1 else 0) + (if ch in c then 1 else 0)
  {
    CountConcat(a + b, c, ch);
    CountConcat(a, b, ch);
    CountAtMostLast(a, ch);
    CountAtMostLast(b, ch);
    CountAtMostLast(c, ch);
  }

  lemma BillingDots(t: String)
    requires t == Reply.BillingTemplate
    ensures Count(t, '.') == 1
  {
    CountPieces(t, "I\U{2019}ve checked your billing ", "details and I can help ", "clarify the recent changes.", '.');
  }

  lemma RefundDots(t: String)
    requires t == Reply.RefundTemplate
    ensures Count(t, '.') == 1
  {
    CountPieces(t, "I can help you with your ", "refund request and explain ", "the next steps.", '.');
  }

  lemma TechnicalDots(t: String)
    requires t == Reply.TechnicalTemplate
    ensures Count(t, '.') == 2
  {
    CountPieces(t, "Thanks for reporting the issue.", " Let's walk through a few ", "troubleshooting steps.", '.');
  }

  lemma InquiryDots(t: String)
    requires t == Reply.InquiryTemplate
    ensures Count(t, '.') == 1
  {
    CountPieces(t, "Here\U{2019}s the ", "information ", "you requested.", '.');
  }

  /** Off the escalation path, the reply agent's tone always passes the supervisor's tone gates. */
  lemma GeneratedToneOk(c: Classification.Classification)
    requires !c.needsEscalation
    ensures ToneOk(c.sentiment, Reply.GenerateReply(c).tone)
  {
  }

  /**
   * On the reply agent's own normal replies the verdict depends on the
   * category alone: the billing and refund templates are escalated because
   * "details" and "explain" hold "ai", the technical and general-inquiry
   * templates are approved.
   */
  lemma TemplateVerdict(c: Classification.Classification)
    requires !c.needsEscalation
    requires c.category in {"billing", "refund", "technical_issue", "general_inquiry"}
    ensures var v := EvaluateReply(c, Reply.GenerateReply(c));
      && (c.category in {"billing", "refund"} ==> v == Reject(ForbiddenReason("AI"), true))
      && (c.category in {"technical_issue", "general_inquiry"} ==> v == Approve(Reply.NormalReply(c.category), c.sentiment))
  {
    var r := Reply.GenerateReply(c);
    GeneratedToneOk(c);
    if c.category == "billing" {
      BillingDots(r.replyText);
      BillingNamesAi(r.replyText);
    } else if c.category == "refund" {
      RefundDots(r.replyText);
      RefundNamesAi(r.replyText);
    } else if c.category == "technical_issue" {
      TechnicalDots(r.replyText);
      TechnicalIsClean(r.replyText);
    } else {
      InquiryDots(r.replyText);
      InquiryIsClean(r.replyText);
    }
  }

  // ---------------------------------------------------------------------------
  // Holding messages promise nothing
  // ---------------------------------------------------------------------------

  /** No holding message pairs "I" with the typographic apostrophe: its "I've" is ASCII. */
  lemma HoldingLacksChecked(h: String)
    requires h in {Reply.HoldingEmpathetic, Reply.HoldingNeutral}
    ensures !Contains(h, CheckedPhrase)
  {
    NotContainsByChar(h, CheckedPhrase, 1);
  }

  /** No holding message holds "lp", so none says "I can help you". */
  lemma HoldingLacksHelp(h: String)
    requires h in {Reply.HoldingEmpathetic, Reply.HoldingNeutral}
    ensures !Contains(h, HelpPhrase)
  {
    if h == Reply.HoldingEmpathetic {
      EmpatheticLacksPair(h);
    } else {
      NeutralLacksPair(h);
    }
    NotContainsByPair(h, HelpPhrase, 8);
  }

  lemma EmpatheticLacksPair(h: String)
    requires h == Reply.HoldingEmpathetic
    ensures !HasPair(h, 'l', 'p')
  {
    NoPairInConcat5("I understand how frustrating ", "this situation must be. ", "I've escalated your case to ",
      "a specialist who will review ", "it as a priority.", 'l', 'p');
  }

  lemma NeutralLacksPair(h: String)
    requires h == Reply.HoldingNeutral
    ensures !HasPair(h, 'l', 'p')
  {
    NoPairInConcat4("Thanks for your patience. ", "I've forwarded your case to ", "our specialist team for ",
      "further review.", 'l', 'p');
  }

  /** The reply agent's holding messages pass the escalation path: they claim no resolution and carry the right tone. */
  lemma HoldingReplyApproved(c: Classification.Classification)
    requires c.needsEscalation
    ensures EvaluateReply(c, Reply.GenerateReply(c)) == Approve(Reply.HoldingMessage(c.sentiment), c.sentiment)
  {
    var h := Reply.HoldingMessage(c.sentiment);
    HoldingLacksChecked(h);
    HoldingLacksHelp(h);
  }
}
