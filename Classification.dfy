/**
 * The classification agent: first-match-wins keyword tables for category,
 * sentiment and urgency, the escalation rule, and the per-sender memory it
 * updates in place on every message.
 */
module Classification {
  import opened Text
  import opened Optional
  import Intake

  const PossibleCategories: seq<String> := ["billing", "technical_issue", "refund", "complaint", "general_inquiry"]

  // ---------------------------------------------------------------------------
  // Category
  // ---------------------------------------------------------------------------

  const BillingKeywords: seq<String> := ["invoice", "subscription", "charge"]
  const RefundKeywords: seq<String> := ["refund", "return"]
  const TechnicalKeywords: seq<String> := ["not working", "error", "crash"]
  const ComplaintKeywords: seq<String> := ["disappointed", "complaint", "poor service"]
  const InquiryKeywords: seq<String> := ["how do i", "can i", "question"]

  /** `detect_category(text)`: the keyword groups tried in a fixed order, `general_inquiry` by default. */
  function DetectCategory(text: String): (r: String)
    ensures r in PossibleCategories
  {
    var low := Lower(text);
    if AnyContained(low, BillingKeywords) then "billing"
    else if AnyContained(low, RefundKeywords) then "refund"
    else if AnyContained(low, TechnicalKeywords) then "technical_issue"
    else if AnyContained(low, ComplaintKeywords) then "complaint"
    else if AnyContained(low, InquiryKeywords) then "general_inquiry"
    else "general_inquiry"
  }

  /** The same precedence written as an ordered rule table. */
  const CategoryRules: seq<(String, seq<String>)> := [
    ("billing", BillingKeywords),
    ("refund", RefundKeywords),
    ("technical_issue", TechnicalKeywords),
    ("complaint", ComplaintKeywords),
    ("general_inquiry", InquiryKeywords)
  ]

  /** The label of the first rule of `rules` that matches, or `default`. */
  function FirstLabel(text: String, rules: seq<(String, seq<String>)>, default: String): (r: String)
    ensures r == default || exists k :: 0 <= k < |rules| && r == rules[k].0
  {
    var k := FirstRule(text, rules);
    if k < |rules| then rules[k].0 else default
  }

  /** `detect_category` is the first-match-wins reading of the category table. */
  lemma CategoryIsFirstMatch(text: String)
    ensures DetectCategory(text) == FirstLabel(Lower(text), CategoryRules, "general_inquiry")
  {
    var low := Lower(text);
    var k := FirstRule(low, CategoryRules);
    assert CategoryRules[0].1 == BillingKeywords && CategoryRules[1].1 == RefundKeywords;
    assert CategoryRules[2].1 == TechnicalKeywords && CategoryRules[3].1 == ComplaintKeywords;
    if AnyContained(low, BillingKeywords) {
      assert k == 0;
    } else if AnyContained(low, RefundKeywords) {
      assert k == 1;
    } else if AnyContained(low, TechnicalKeywords) {
      assert k == 2;
    } else if AnyContained(low, ComplaintKeywords) {
      assert k == 3;
    } else {
      assert k >= 4;
    }
  }

  /**
   * Precedence: once a keyword of an earlier group occurs, no later group's
   * category is chosen.
   */
  lemma CategoryPrecedence(text: String, i: nat, j: nat)
    requires i < j < |CategoryRules|
    requires SomeOccurs(Lower(text), CategoryRules[i].1)
    ensures DetectCategory(text) != CategoryRules[j].0
  {
    CategoryIsFirstMatch(text);
    var k := FirstRule(Lower(text), CategoryRules);
    assert k <= i;
  }

  /** "invoice" anywhere, in any case, makes the message `billing`, even beside "refund". */
  lemma InvoiceIsBilling(text: String)
    requires Contains(Lower(text), "invoice")
    ensures DetectCategory(text) == "billing"
  {
    assert Contains(Lower(text), BillingKeywords[0]);
  }

  /** "return" makes the message `refund` unless a billing keyword occurs too. */
  lemma ReturnIsRefund(text: String)
    requires Contains(Lower(text), "return")
    ensures DetectCategory(text) == "refund" <==> !SomeOccurs(Lower(text), BillingKeywords)
  {
    assert Contains(Lower(text), RefundKeywords[1]);
  }

  // ---------------------------------------------------------------------------
  // Sentiment
  // ---------------------------------------------------------------------------

  /** `SENTIMENT_KEYWORDS`, in its declared order. */
  const SentimentKeywords: seq<(String, seq<String>)> := [
    ("angry", ["unacceptable", "angry", "furious", "not acceptable", "fix this now"]),
    ("frustrated", ["frustrating", "frustrated", "this is really", "not working"]),
    ("confused", ["don't understand", "what does this mean", "confusing"]),
    ("calm", ["hi", "hello", "kind regards", "thanks"]),
    ("neutral", []),
    ("happy", ["thank you so much", "great", "happy", "appreciate"])
  ]

  const Sentiments: seq<String> := ["angry", "frustrated", "confused", "calm", "neutral", "happy"]

  /** `detect_sentiment(text)`: the first sentiment with a keyword in the text, else `neutral`. */
  function DetectSentiment(text: String): (r: String)
    ensures r in Sentiments
    ensures r == "neutral" || exists k :: (
      && 0 <= k < |SentimentKeywords| && r == SentimentKeywords[k].0
      && SomeOccurs(Lower(text), SentimentKeywords[k].1)
      && forall j :: 0 <= j < k ==> !SomeOccurs(Lower(text), SentimentKeywords[j].1))
  {
    FirstLabel(Lower(text), SentimentKeywords, "neutral")
  }

  /** `neutral` has no keywords, so it is chosen exactly when no keyword of any sentiment occurs. */
  lemma NeutralIffNoKeyword(text: String)
    ensures DetectSentiment(text) == "neutral" <==>
      forall k :: 0 <= k < |SentimentKeywords| ==> !SomeOccurs(Lower(text), SentimentKeywords[k].1)
  {
    var k := FirstRule(Lower(text), SentimentKeywords);
    assert !SomeOccurs(Lower(text), SentimentKeywords[4].1);
    if k < |SentimentKeywords| {
      assert k != 4;
      assert SentimentKeywords[k].0 != "neutral";
    }
  }

  /** `happy` is chosen only when no angry, frustrated, confused or calm keyword occurs. */
  lemma HappyOnlyLast(text: String)
    requires DetectSentiment(text) == "happy"
    ensures forall k :: 0 <= k < 4 ==> !SomeOccurs(Lower(text), SentimentKeywords[k].1)
    ensures SomeOccurs(Lower(text), SentimentKeywords[5].1)
  {
    var k := FirstRule(Lower(text), SentimentKeywords);
    assert k == 5;
  }

  // ---------------------------------------------------------------------------
  // Urgency
  // ---------------------------------------------------------------------------

  const HighUrgencyPhrases: seq<String> := ["as soon as possible", "urgent", "fix today"]
  const LowUrgencyPhrases: seq<String> := ["not urgent", "whenever you can"]

  /** `detect_urgency(text)`: `high` before `low`, `normal` by default. */
  function DetectUrgency(text: String): (r: String)
    ensures r in ["high", "low", "normal"]
    ensures r == "high" <==> SomeOccurs(Lower(text), HighUrgencyPhrases)
    ensures r == "low" <==> !SomeOccurs(Lower(text), HighUrgencyPhrases) && SomeOccurs(Lower(text), LowUrgencyPhrases)
  {
    var low := Lower(text);
    if AnyContained(low, HighUrgencyPhrases) then "high"
    else if AnyContained(low, LowUrgencyPhrases) then "low"
    else "normal"
  }

  /** "not urgent" holds "urgent", so a message saying it is not urgent is `high`. */
  lemma NotUrgentIsHigh(text: String)
    requires Contains(Lower(text), "not urgent")
    ensures DetectUrgency(text) == "high"
  {
    ContainsAt("not urgent", "urgent", 4);
    ContainsTrans(Lower(text), "not urgent", "urgent");
    assert Contains(Lower(text), HighUrgencyPhrases[1]);
  }

  // ---------------------------------------------------------------------------
  // Escalation
  // ---------------------------------------------------------------------------

  const EscalationTriggers: seq<String> := ["unacceptable", "angry", "furious", "fix this now", "third time", "fourth email"]

  /** `check_escalation(text, sentiment)`: a negative sentiment OR a trigger phrase. */
  function CheckEscalation(text: String, sentiment: String): (r: bool)
    ensures r <==> sentiment in {"angry", "frustrated"} || SomeOccurs(Lower(text), EscalationTriggers)
  {
    if sentiment in ["angry", "frustrated"] then true
    else AnyContained(Lower(text), EscalationTriggers)
  }

  /**
   * With the classifier's own sentiment, the first four triggers are angry
   * keywords too, so only "third time" and "fourth email" add anything.
   */
  lemma EscalationOfClassifiedText(text: String)
    ensures var s := DetectSentiment(text); var low := Lower(text);
      CheckEscalation(text, s) <==> s in {"angry", "frustrated"} || Contains(low, "third time") || Contains(low, "fourth email")
  {
    var low := Lower(text);
    if SomeOccurs(low, EscalationTriggers) {
      var t :| 0 <= t < |EscalationTriggers| && Contains(low, EscalationTriggers[t]);
      if t < 4 {
        var a := if t < 3 then t else 4;
        assert SentimentKeywords[0].1[a] == EscalationTriggers[t];
        assert SomeOccurs(low, SentimentKeywords[0].1);
        assert FirstRule(low, SentimentKeywords) == 0;
      }
    }
    if Contains(low, "third time") {
      assert Contains(low, EscalationTriggers[4]);
    }
    if Contains(low, "fourth email") {
      assert Contains(low, EscalationTriggers[5]);
    }
  }

  // ---------------------------------------------------------------------------
  // Per-sender memory
  // ---------------------------------------------------------------------------

  datatype MemoryRecord = MemoryRecord(messageCount: nat, lastCategory: Option<String>, lastSentiment: Option<String>)

  type Memory = map<String, MemoryRecord>

  /** Messages seen from `sender` so far; an unseen sender counts as zero. */
  function MessageCount(m: Memory, sender: String): nat {
    if sender in m then m[sender].messageCount else 0
  }

  /** The memory after one `update_memory(sender, category, sentiment)`. */
  function Remember(m: Memory, sender: String, category: String, sentiment: String): (m': Memory)
    ensures m'.Keys == m.Keys + {sender}
    ensures MessageCount(m', sender) == MessageCount(m, sender) + 1
    ensures m'[sender].lastCategory == Some(category) && m'[sender].lastSentiment == Some(sentiment)
    ensures forall s :: s in m && s != sender ==> m'[s] == m[s]
  {
    m[sender := MemoryRecord(MessageCount(m, sender) + 1, Some(category), Some(sentiment))]
  }

  /** One classified message: who sent it, and the category and sentiment recorded. */
  datatype Update = Update(sender: String, category: String, sentiment: String)

  /** The memory after a run of updates, oldest first. */
  function RememberAll(m: Memory, updates: seq<Update>): Memory
    decreases |updates|
  {
    if updates == [] then m
    else
      var last := updates[|updates| - 1];
      Remember(RememberAll(m, updates[..|updates| - 1]), last.sender, last.category, last.sentiment)
  }

  /** How many of `updates` come from `sender`. */
  function UpdatesFrom(updates: seq<Update>, sender: String): nat {
    if updates == [] then 0
    else UpdatesFrom(updates[..|updates| - 1], sender) + (if updates[|updates| - 1].sender == sender then 1 else 0)
  }

  /** After N messages from a sender its count has grown by exactly N; other senders do not move it. */
  lemma {:induction false} CountAfterUpdates(m: Memory, updates: seq<Update>, sender: String)
    ensures MessageCount(RememberAll(m, updates), sender) == MessageCount(m, sender) + UpdatesFrom(updates, sender)
    decreases |updates|
  {
    if updates != [] {
      var prefix := updates[..|updates| - 1];
      var last := updates[|updates| - 1];
      CountAfterUpdates(m, prefix, sender);
      var before := RememberAll(m, prefix);
      if last.sender != sender {
        assert sender in before ==> RememberAll(m, updates)[sender] == before[sender];
      }
    }
  }

  // ---------------------------------------------------------------------------
  // The agent
  // ---------------------------------------------------------------------------

  datatype Classification = Classification(
    category: String,
    urgency: String,
    sentiment: String,
    threadStatus: String,
    needsEscalation: bool,
    memoryUpdate: MemoryRecord,
    notes: String)

  class Classifier {
    /** `memory_db`: one record per sender, updated in place. */
    var memory: Memory

    /** `ClassificationAgent(memory_db)`: the given store, or an empty one. */
    constructor (initial: Option<Memory>)
      ensures memory == if initial.Some? then initial.value else map[]
    {
      memory := if initial.Some? then initial.value else map[];
    }

    /** `update_memory`: create the record lazily, count the message, overwrite the last values. */
    method UpdateMemory(sender: String, category: String, sentiment: String) returns (rec: MemoryRecord)
      modifies this
      ensures memory == Remember(old(memory), sender, category, sentiment)
      ensures rec == memory[sender]
      ensures rec.messageCount == old(MessageCount(memory, sender)) + 1
    {
      if sender !in memory {
        memory := memory[sender := MemoryRecord(0, None, None)];
      }
      var r := memory[sender];
      memory := memory[sender := r.(messageCount := r.messageCount + 1)];
      memory := memory[sender := memory[sender].(lastCategory := Some(category))];
      memory := memory[sender := memory[sender].(lastSentiment := Some(sentiment))];
      rec := memory[sender];
    }

    /** `process(clean_email, sender)`: classify the cleaned body and record the message. */
    method Process(email: Intake.IntakeResult, sender: String := "unknown") returns (c: Classification)
      modifies this
      ensures c.category == DetectCategory(email.cleanBody)
      ensures c.sentiment == DetectSentiment(email.cleanBody)
      ensures c.urgency == DetectUrgency(email.cleanBody)
      ensures c.threadStatus == email.threadStatus
      ensures c.needsEscalation == CheckEscalation(email.cleanBody, c.sentiment)
      ensures memory == Remember(old(memory), sender, c.category, c.sentiment)
      ensures c.memoryUpdate == memory[sender] && c.notes == ""
    {
      var text := email.cleanBody;
      var thread := email.threadStatus;
      var category := DetectCategory(text);
      var sentiment := DetectSentiment(text);
      var urgency := DetectUrgency(text);
      var needsEscalation := CheckEscalation(text, sentiment);
      var memoryUpdate := UpdateMemory(sender, category, sentiment);
      c := Classification(category, urgency, sentiment, thread, needsEscalation, memoryUpdate, "");
    }
  }
}
