# Support email triage engine, modelled in Dafny

This project models the rule-based core of a support-email triage engine. A raw email goes through five stages:

- **Intake** normalises its whitespace and flags it as a reply or a single message.
- **Classification** assigns a category, a sentiment, an urgency and an escalation flag by ordered keyword scans. It also records the sender in a per-sender memory map that it updates in place.
- **Decision** routes the message to the automatic reply agent (`approve`) or to a person (`escalate_to_human`).
- **Reply**, only when the decision approves, picks a template or a holding message and a tone.
- **Supervisor** then runs the draft through four short-circuit gates (escalation path, tone, length, forbidden phrases) and approves it, asks for a rewrite, or escalates it.

Modules, one per source file:

- `Text` holds the string primitives every agent uses:
  - ASCII lower-casing (`str.lower`);
  - substring containment (`in`);
  - first-match keyword scans;
  - counting a character;
  - `str.split` on one character, with its round trip through `join`.
- `Intake` models `agents/intake_agent.py`.
- `Classification` models `agents/classification_agent.py`. The `Classifier` class holds the memory as a `map` field that its methods reassign.
- `Decision` models `agents/decision_agent.py`.
- `Reply` models `agents/reply_agent.py`.
- `Supervisor` models `agents/supervisor_agent.py`.
- `Pipeline` models `app/pipeline.py`. Its `EmailSupportPipeline` class owns the classifier, whose memory persists from one `Run` to the next.

Categories, sentiments, tones and actions stay strings, as in the source. The decision agent lower-cases and defaults them, and the reply agent falls back for an unknown category.

Facts about the supervisor's gates that the proofs pin down:

- On the escalation path an approval echoes the reply even when it is empty (`Supervisor.EscalationApprovesEmptyReply`). Off that path an approved reply is never empty (`Supervisor.NormalApprovalNonEmpty`).
- The length gate splits on `.` only; `!` and `?` do not count (`Supervisor.LengthOk`).
- The length gate's message says "3-5 sentences". The code passes a reply holding one to five `.` (two to six segments), and a failure is a rewrite, not an escalation (`Supervisor.LengthFailureRewrites`).

Behaviour of the code that the proofs make explicit:

- The thread marker "On" matches any "on", so a body saying "question" is a reply (`Intake.QuestionMeansReply`).
- The thread status is read from the raw body. A marker split by a line break is therefore missed, although cleaning would have joined it (`Intake.ThreadReadFromRawBody`).
- "not urgent" contains "urgent", so such a message is `high` urgency (`Classification.NotUrgentIsHigh`).
- The forbidden phrase "AI" matches inside ordinary words (`Supervisor.AiInsideWords`). As a result the reply agent's own billing and refund templates ("details", "explain") are always escalated by the supervisor in a run, while the technical and general-inquiry templates are approved (`Pipeline.SupervisedVerdictByCategory`).
- "as an AI" is listed after "AI", so it is never the phrase named (`Supervisor.AsAnAiNeverNamed`).
- Through the pipeline, an escalation flag stops the run at the decision. The reply agent's holding messages and the supervisor's escalation gate are therefore unreachable from `run` (`Pipeline.AutoReplyIsTemplate`).

## Model

| member | source | states |
|---|---|---|
| Text.ContainsIff | agents/intake_agent.py:36 | substring containment holds exactly when the pattern occurs at some index of the text |
| Text.SplitLength | agents/supervisor_agent.py:73 | splitting on one character yields one more piece than the character's occurrences |
| Text.JoinSplit | agents/supervisor_agent.py:73 | joining the pieces of a split with the separator gives back the original string |
| Text.SplitPiecesFree | agents/supervisor_agent.py:73 | no piece of a split holds the separator, so with `JoinSplit` the pieces are exactly the separator-free runs |
| Intake.CleanText | agents/intake_agent.py:13-24 | empty input gives empty output; the result has no leading or trailing whitespace, each whitespace is a single space between two visible characters, and it is never longer than the input |
| Intake.CleanTextFixesClean | agents/intake_agent.py:21 | an already clean string is returned unchanged |
| Intake.CleanTextIdempotent | agents/intake_agent.py:21 | cleaning twice equals cleaning once |
| Intake.CleanTextKeepsVisible | agents/intake_agent.py:21 | the non-whitespace characters survive cleaning, in order, with none added |
| Intake.CleanTextIgnoresSpaceKind | agents/intake_agent.py:21 | two texts differing only in which whitespace character stands at each place clean to the same string |
| Intake.CleanTextSplitsAtSpaces | agents/intake_agent.py:21 | a non-empty whitespace run between two visible characters becomes exactly one space, and the text on either side is cleaned on its own |
| Intake.CleanTextDropsEdges | agents/intake_agent.py:21 | whitespace before or after the text is dropped without trace: cleaning `w + t` or `t + w` for an all-whitespace `w` gives the cleaning of `t` |
| Intake.DetectThread | agents/intake_agent.py:26-39 | the result is "reply" or "single", and "reply" exactly when some lower-cased marker occurs in the lower-cased body |
| Intake.OnMeansReply | agents/intake_agent.py:31-37 | any body containing "on" in any case is a reply |
| Intake.QuestionMeansReply | agents/intake_agent.py:31-37 | a body containing "question" is a reply |
| Intake.SplitMarkerMissed | agents/intake_agent.py:31-39 | "Forwarded" and "message" separated by a line break are not detected as a reply |
| Intake.ProcessEmail | agents/intake_agent.py:41-61 | subject and body are cleaned; the length is the cleaned body's and never exceeds the raw body's; the thread status is computed from the raw body; no sender, empty notes |
| Intake.ThreadReadFromRawBody | agents/intake_agent.py:47-50 | for the body "Forwarded\nmessage" the thread status is "single", though the cleaned body would be detected as a reply |
| Classification.DetectCategory | agents/classification_agent.py:37-51 | the category is always one of the five possible categories |
| Classification.CategoryIsFirstMatch | agents/classification_agent.py:37-51 | the category is the label of the first keyword group, in the order billing, refund, technical_issue, complaint, general_inquiry, with a keyword in the lower-cased text, else general_inquiry |
| Classification.CategoryPrecedence | agents/classification_agent.py:40-49 | a text matching an earlier group never gets a later group's category |
| Classification.InvoiceIsBilling | agents/classification_agent.py:40-41 | "invoice" in any case makes the message billing, whatever else it says |
| Classification.ReturnIsRefund | agents/classification_agent.py:40-43 | a text containing "return" is refund exactly when no billing keyword occurs |
| Classification.DetectSentiment | agents/classification_agent.py:53-61 | the sentiment is one of the six, and either neutral or the first sentiment in declared order with a keyword in the text, no earlier sentiment matching |
| Classification.NeutralIffNoKeyword | agents/classification_agent.py:53-61 | neutral is returned exactly when no keyword of any sentiment occurs |
| Classification.HappyOnlyLast | agents/classification_agent.py:20-27 | happy is returned only when no angry, frustrated, confused or calm keyword occurs and a happy one does |
| Classification.DetectUrgency | agents/classification_agent.py:63-71 | high exactly when a high phrase occurs; low exactly when none does and a low phrase does; otherwise normal |
| Classification.NotUrgentIsHigh | agents/classification_agent.py:66-69 | a text saying "not urgent" is high urgency |
| Classification.CheckEscalation | agents/classification_agent.py:73-83 | escalation is needed exactly when the sentiment is angry or frustrated or some trigger occurs in the lower-cased text |
| Classification.EscalationOfClassifiedText | agents/classification_agent.py:29 | with the detected sentiment, escalation is needed exactly when the sentiment is angry or frustrated or the text says "third time" or "fourth email": the other triggers are angry keywords |
| Classification.Remember | agents/classification_agent.py:85-97 | the sender becomes a key; its count grows by one from zero for an unseen sender; its last category and sentiment are overwritten; every other sender's record is unchanged |
| Classification.CountAfterUpdates | agents/classification_agent.py:85-97 | after a sequence of updates a sender's count has grown by exactly the number of those updates that came from it |
| Classification.Classifier.constructor | agents/classification_agent.py:31-35 | the memory is the given store, or empty when none is given |
| Classification.Classifier.UpdateMemory | agents/classification_agent.py:85-97 | the memory becomes the old memory with the sender remembered; the returned record is the sender's stored record, its count one more than before |
| Classification.Classifier.Process | agents/classification_agent.py:99-124 | category, sentiment, urgency and escalation are those detected on the cleaned body; the thread status is copied; the memory records the sender; the memory update is the sender's stored record |
| Decision.OrDefault | agents/decision_agent.py:37-40 | a missing or empty value is replaced by the default, any other value is kept |
| Decision.Decide | agents/decision_agent.py:18-74 | the action is approve or escalate_to_human and the confidence high or medium; approve exactly when the flag is off, the lower-cased defaulted sentiment is not angry or frustrated and the lower-cased defaulted category is not high-risk; the reason is one of the four justifications, and an approval always carries the safe-to-auto-reply reason; the per-rule lemmas below fix the reason of each escalation |
| Decision.FlagEscalates | agents/decision_agent.py:45-48 | a set escalation flag escalates with high confidence and the flag's reason, whatever the other fields say |
| Decision.NegativeSentimentEscalates | agents/decision_agent.py:50-53 | without the flag, an angry or frustrated sentiment escalates with high confidence and the reason naming that sentiment |
| Decision.HighRiskEscalates | agents/decision_agent.py:55-58 | without the flag or a negative sentiment, a high-risk category escalates with medium confidence and the reason naming that category |
| Decision.ComplaintEscalates | agents/decision_agent.py:13 | the category complaint always escalates |
| Decision.ApprovalConfidence | agents/decision_agent.py:59-66 | an approval is high-confidence exactly when the sentiment is calm, and carries the safe-to-auto-reply reason |
| Decision.DefaultsApproveConfidently | agents/decision_agent.py:37-38 | missing or empty category and sentiment, without the flag, approve with high confidence |
| Decision.UrgencyIgnored | agents/decision_agent.py:40 | changing the urgency never changes the decision |
| Reply.HoldingMessage | agents/reply_agent.py:16-28 | the result is one of the two holding messages, the empathetic one exactly for angry or frustrated customers |
| Reply.NormalReply | agents/reply_agent.py:30-42 | a known category gets its template, any other the generic thanks |
| Reply.GenerateReply | agents/reply_agent.py:44-79 | human review is required exactly when escalation is flagged; the text is the holding message with the flag and the category's reply without it; the tone is empathetic exactly for angry or frustrated customers and friendly exactly for happy ones without the flag; the summary names the category and the tone used |
| Supervisor.Approve | agents/supervisor_agent.py:104-114 | an approval echoes the reply, gives the reason "Reply approved.", needs no person, and records quality 5 and the sentiment |
| Supervisor.Reject | agents/supervisor_agent.py:116-126 | a rejection escalates exactly when a person is needed and otherwise asks for a rewrite; the final reply is empty; quality 2 and no sentiment are recorded |
| Supervisor.LengthOk | agents/supervisor_agent.py:73-78 | the length gate passes exactly when the reply holds one to five `.` |
| Supervisor.FirstForbidden | agents/supervisor_agent.py:83-96 | the index found is that of the first forbidden phrase occurring case-insensitively, no earlier one occurring, or the list's length when none occurs |
| Supervisor.EvaluateReply | agents/supervisor_agent.py:15-101 | the action is approve, rewrite or escalate_to_human; every approval is exactly `Approve` of the reply and the sentiment; any other verdict has an empty reply and quality 2; a person is needed exactly when the action is an escalation |
| Supervisor.EscalationPathVerdict | agents/supervisor_agent.py:37-53 | with escalation flagged, the reply is approved exactly when it claims no resolution and the tone is empathetic for an angry or frustrated customer; every rejection escalates, a resolution claim with the resolution reason and otherwise a missing empathetic tone with the escalation-tone reason |
| Supervisor.NormalPathApproval | agents/supervisor_agent.py:58-101 | without the flag, the reply is approved exactly when the tone fits the sentiment, it holds one to five `.`, and no forbidden phrase occurs in any case |
| Supervisor.NormalApprovalNonEmpty | agents/supervisor_agent.py:73-101 | without the flag, an approved reply is never empty |
| Supervisor.EscalationApprovesEmptyReply | agents/supervisor_agent.py:37-53 | with the flag and a calm-side sentiment, an empty reply is approved with an empty final reply |
| Supervisor.ToneDecidesFirst | agents/supervisor_agent.py:58-62 | without the flag, a non-empathetic reply to an angry or frustrated customer is escalated for tone, whatever its length or content |
| Supervisor.HappyToneRewrites | agents/supervisor_agent.py:64-68 | without the flag, a reply to a happy customer in any tone but friendly is sent back for a rewrite, whatever its length or content |
| Supervisor.LengthFailureRewrites | agents/supervisor_agent.py:73-78 | once the tone fits, a reply with no `.` or more than five is sent back for a rewrite |
| Supervisor.ForbiddenNamesFirst | agents/supervisor_agent.py:91-96 | a reply passing tone and length that contains a forbidden phrase is escalated, naming the first listed phrase it contains |
| Supervisor.AsAnAiNeverNamed | agents/supervisor_agent.py:83-96 | "as an AI" is never the phrase found, because "AI" comes first and is inside it |
| Supervisor.AiInsideWords | agents/supervisor_agent.py:87-92 | a reply containing "details" or "explain" always trips the forbidden list |
| Supervisor.VerdictIgnoresUnusedFields | agents/supervisor_agent.py:25-32 | the verdict depends only on the sentiment, the flag, the reply text and the tone |
| Supervisor.HoldingLacksChecked | agents/reply_agent.py:21-27 | neither holding message contains "I’ve checked" with the typographic apostrophe |
| Supervisor.HoldingLacksHelp | agents/reply_agent.py:21-27 | neither holding message contains "I can help you" |
| Supervisor.HoldingReplyApproved | agents/supervisor_agent.py:37-53 | with the flag, the reply agent's own holding reply is approved |
| Supervisor.TemplateVerdict | agents/supervisor_agent.py:58-101 | without the flag, the reply agent's billing and refund replies are escalated naming "AI", and its technical and general-inquiry replies are approved |
| Supervisor.BillingNamesAi | agents/reply_agent.py:36 | the billing template passes the first three forbidden phrases and trips "AI" |
| Supervisor.RefundNamesAi | agents/reply_agent.py:38 | the refund template passes the first three forbidden phrases and trips "AI" |
| Supervisor.TechnicalIsClean | agents/reply_agent.py:37 | the technical template contains no forbidden phrase in any case |
| Supervisor.InquiryIsClean | agents/reply_agent.py:40 | the general-inquiry template contains no forbidden phrase in any case |
| Pipeline.DecisionInputOf | app/pipeline.py:49-57 | the decision input carries the classification's category, urgency, sentiment and flag, all present |
| Pipeline.Route | app/pipeline.py:59-85 | the decision is taken on the classification; a reply and a verdict are present exactly when it approves, and then they are the reply agent's reply and the supervisor's verdict on it |
| Pipeline.EmailSupportPipeline.constructor | app/pipeline.py:24-29 | a fresh classifier with empty memory |
| Pipeline.EmailSupportPipeline.Run | app/pipeline.py:31-85 | the intake is the processed email; the classification is computed from the cleaned body; the rest of the result is the routing of that classification; the classifier's memory records the sender once more |
| Pipeline.ApproveIff | app/pipeline.py:53-60 | on the classifier's output, the decision approves exactly when escalation is not flagged and the category is not complaint |
| Pipeline.EscalatedRunStops | app/pipeline.py:63-75 | an escalated run has neither reply nor verdict |
| Pipeline.ComplaintNeverAutoReplied | app/pipeline.py:66 | a complaint never gets an automatic reply |
| Pipeline.AutoReplyIsTemplate | app/pipeline.py:66-70 | a reply drafted in a run never asks for human review and is the category's template |
| Pipeline.SupervisedVerdictByCategory | app/pipeline.py:66-75 | in a run, technical and general-inquiry replies are approved, billing and refund replies are escalated naming "AI", and a rewrite is never requested |
| Pipeline.RunsAccumulate | app/pipeline.py:43-46 | two memory updates for one sender, as two runs make them, raise its count by two and keep the last category, leaving every other sender's record alone |

## Left out

- Reading files, writing results, and printing are not modelled. This covers CSV loading with encoding fallback, JSON output, console reports, and every quick-test block under `__main__`. They are input and output with no decision logic.
- The reply agent's `llm` handle is not modelled: it is stored and never used.
- Python's Unicode case mapping and Unicode whitespace are not modelled. `str.lower` is ASCII lower-casing, and `\s` and `strip` use the ASCII whitespace set. The typographic apostrophe U+2019 stays distinct from `'`.
- Missing dictionary keys, which raise errors in the source, are not modelled. Inputs are records with every field present. The decision input keeps optional fields because `decide` reads them with defaults.
- The pipeline's `id`, `subject` and `body` decision-input keys are left out, because `decide` never reads them. The `final_action` default in `run` is also left out, because `decide` always sets the action.
- Classification.Classifier.Process: the returned memory update is a snapshot of the sender's record. In the source it is the stored dictionary itself, so later runs change earlier results through aliasing.
- Pipeline.EmailSupportPipeline.constructor: the intake, decision, reply and supervisor agents hold no state. They are modelled as functions, not fields.
- There is no concurrency in the source, and none is modelled.
