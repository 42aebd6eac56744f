# Verification model of CoRA Mail

A Dafny model of the parts of CoRA Mail that carry state, search or arithmetic, with proofs about them. `dafny verify
dfyconfig.toml` checks everything. What the program does step by step is a method or a class here, proved against a
function; the lemmas are about those functions.

- **Vertical tables** (`VerticalTokens`, `RfqTable`, `RfqRoundTrip`, `RfqSearch`, `RfqWrapped`, `QuoteTable`,
  `VerticalHeader`, `QuoteText`, `RfqText`): attachments arrive as one token a line below a header of labels. The RFQ parser searches for
  successive row numbers, backs off between candidate ends and falls back to a scan; the quote parser undoes what
  de-duplication destroyed, and counts rows under a header it searches for differently. All are proved against the printer
  that flattens rows, up to whole pages.
- **Work items** (`WorkModel`, `WorkRepository`, `WorkLog`, `WorkFullLog`, `OutboundLinks`, `OutboundSync`): assignment,
  tenure, acknowledgement, reply, completion, and the linking of sent mail, one atomic step for each transaction over the tables
  of items, events and sent mail. Rows are proved to be a fold of the log; every link is a logged response or a counted
  repetition; a sync is quiet exactly when nothing is eligible.
- **Routing and its gate** (`MailSchemas`, `Rounding`, `Bags`, `RoutingPolicy`, `RoutingLaws`, `SyntheticDataset`,
  `DecisionAgent`, `DecisionNodes`, `DecisionGate`): weighted scoring in exact numbers with the four-decimal rounding
  written out, the generator whose mails it must route, and the chain of review conditions from a stored context and an
  arbitrary model answer to a forwarded mail, over any number of failing and resumed runs.
- **Retrieval** (`Retrieval`, `RetrievalLaws`, `RetrievalRetry`, `AssignmentContext`): the bounded retry loop over arbitrary
  search results and what a retry can add, de-duplicated top-k selection, and two aggregations per user that should agree.
- **Metrics** (`EvaluationMetrics`): two computations of F1 that must agree.
- **Settings file** (`Dotenv`, `DotenvLaws`, `DotenvText`, `DotenvRoundTrip`, `DotenvRewrite`): the writer of the settings page and the
  first-wins reader of the runtime, down to the characters lines are split at.
- **Document fields** (`DocumentFields`, `FormLabels`, `FilterLaws`, `FilterAgain`, `RowFixpoint`, `FilterFixpoint`,
  `FieldValidation`, `RowRecovery`, `NestedHeaders`, `AnalysisHistory`, `FieldPreservation`): the fixed-schema filter on arbitrary nested
  payloads, validation against the text, and the rule that a new analysis must not replace extracted fields by none.

`Text` holds the string primitives: stripping, decimal numerals, joining.

## Where the program does not keep what it promises

Each of these is a lemma with the failing input and, beside it, the exact condition under which the property holds.

- The last RFQ row is lost when one of its cells is the number that would come next, and a row whose cells cannot be told
  apart is not read as printed: `RfqRoundTrip.RoundTrip`, `RfqRoundTrip.RoundTripIff`, `RfqText.PageRoundTripIff`, and
  `RfqWrapped.WrappedRoundTripIff` for wrapped rows. A quote row is lost when its amount is the next row's number:
  `QuoteTable.RoundTrip`, `QuoteText.PageRoundTrip`.
- Quote rows are counted below a header that the extraction never finds when the number label stands first and the
  description behind quantity, unit, price or amount; the two searches agree if and only if those two orders go together
  (`QuoteText.HeadersAgreeIff`), as they do in the printed one (`QuoteText.HeadersEndTogether`).
- A message id read from two accounts can be linked twice to one item and logged once
  (`OutboundSync.TwoAccountsLoseAResponse`). A link is left out of the log exactly when its item has a response to that id
  already (`OutboundSync.LoggedUnlessRepeated`), and links and responses are equally many if and only if that never happened
  in the run (`OutboundLinks.LinksLoggedIff`). A row's status and response dates then differ from the log if and only if the
  first or the last response of its tenure, dropped ones counted, is dated unlike the first or last logged one
  (`WorkFullLog.ResponsesAgreeIff`).
- A run can fail behind the effects of its last node, when its step or its state is saved: the mail is forwarded, the run is
  not completed, and no later attempt completes it, because the key of the notification is taken. That happens if and only
  if an attempt that would have completed failed there (`DecisionGate.ForwardedIncompleteIff`), which any attempt that
  forwards can (`DecisionGate.ClearedFailsBehind`). A later attempt that reaches the node takes the assignment back from
  forwarded to assigned, and where the run starts over, possibly to another user than the one notified
  (`DecisionGate.ForwardedAgain`).
- A reply initiated before the date of an already synced message is linked by the next sync
  (`OutboundSync.ResyncLinksLateReplies`); a sync links nothing if and only if every message is linked or has no eligible
  item (`OutboundSync.SyncQuietIff`).
- A retry is meant to search more broadly, but the broadening query is the first to fall to the cut at twelve: it is asked
  if and only if the facts alone give at most ten queries (`RetrievalRetry.RetryBroadensIff`), and with twelve the retries
  change nothing (`RetrievalRetry.RetryIsIdle`).
- A rerank score can displace the only strong hit (`RetrievalLaws.RerankLosesStrongHit`); a strong hit is selected if and
  only if one has fewer than `limit` hits ahead of it (`RetrievalLaws.StrongSurvivesIff`). None of the repository's own
  retrievers sets a rerank score (app/retrieval/qdrant_client.py:61,
  app/repositories/postgres_retrieval_repository.py:61, 97, 130), so this is an input the selection accepts and not one
  that occurs today.
- A user id in another spelling counts for the context but not for the policy (`AssignmentContext.SpellingSplitsUser`); the
  two agree if and only if the ranks and scores counted under either reach each other
  (`AssignmentContext.AggregationsAgreeIff`).
- The settings page refuses two of the characters lines are split at and accepts the others
  (`DotenvRoundTrip.AcceptedButLost`); values come back, and a second write changes nothing, if and only if they hold no such
  character (`DotenvRoundTrip.RoundTrip`, `DotenvRewrite.PersistIsIdempotentIff`).
- Filtering twice is not filtering once (`FilterAgain.WonTwice`); it is if and only if headers are scalars and cells settled
  (`FilterFixpoint.FilterIdempotentIff`). A header the model writes as a list passes the filter once and is dropped by the
  next pass, so validation loses it (`FieldValidation.HeaderKeptIff`; for headers that nest others as well,
  `NestedHeaders.NestedHeaderKeptIff`) and so does the rule that preserves fields (`FieldPreservation.ListHeaderLost`,
  `FieldPreservation.SurvivesIff`).

## Model

| member | source | states |
|---|---|---|
| `VerticalTokens.DedupeAdjacent` | app/document_processing/parsers.py:1236-1242 | the loop removes exactly the tokens equal to their predecessor |
| `VerticalTokens.DedupeFixes` | app/document_processing/parsers.py:1236-1242 | the result has no adjacent repeats, and de-duplication changes a list if and only if it has one |
| `RfqTable.ParseSegmentedItem` | app/document_processing/parsers.py:1188-1218 | the backward scan for unit and quantity and the code-continuation loop compute the specified split of a segment |
| `RfqTable.TokenIndexes` | app/document_processing/parsers.py:1184-1185 | all candidate ends of an item, in order and without gaps |
| `RfqTable.TryCandidates` | app/document_processing/parsers.py:1157-1168 | back-off: the first candidate end whose segment parses wins |
| `RfqTable.FindItem` | app/document_processing/parsers.py:1155-1170 | the item at a number, ended by the next number or, when that never occurs, by the end of the text |
| `RfqTable.ExtractSegmentedItems` | app/document_processing/parsers.py:1148-1174 | the whole search loop terminates on every token list and computes the specified items |
| `RfqRoundTrip.ParseComplete` | app/document_processing/parsers.py:1188-1224 | every row whose cells can be told apart, descriptions and codes wrapped over any number of tokens included, is read back as printed |
| `RfqRoundTrip.ParseSound` | app/document_processing/parsers.py:1188-1224 | and nothing else is read: a parsed segment is such a row, split in exactly one way |
| `RfqRoundTrip.ExtractNumbers` | app/document_processing/parsers.py:1148-1174 | for every token list the items are numbered consecutively and come from disjoint increasing segments, each parsed from its own |
| `RfqRoundTrip.ItemsNumbered` | app/document_processing/parsers.py:1148-1174 | the items are numbered exactly 1..n |
| `RfqRoundTrip.RoundTrip` | app/document_processing/parsers.py:1148-1224 | printable rows flattened, de-duplicated and extracted come back exactly, except that the last row is lost if and only if one of its cells is the text of n+1 |
| `RfqRoundTrip.RoundTripIff` | app/document_processing/parsers.py:1148-1224 | rows with amounts and units come back, already in number, if and only if every row is printable and the last does not hold the number that would follow |
| `RfqSearch.UnreadableIff` | app/document_processing/parsers.py:1188-1218 | a stretch of tokens cannot be read if and only if it has no amount in front of a unit, the last one stands too far left, or everything in front of it runs together |
| `RfqSearch.SearchFindsNothingIff` | app/document_processing/parsers.py:1148-1174 | for every token list: the search finds no item if and only if nothing between a "1" and any place an item could end is readable |
| `RfqWrapped.WrappedRoundTripIff` | app/document_processing/parsers.py:1148-1224 | any number of rows wrapped over any number of lines: every row is read from its own tokens if and only if no neighbours are equal, no number inside a row has something readable in front of it, and the last row does not hold the number that would follow |
| `RfqWrapped.PairFree` | app/document_processing/parsers.py:1157-1218 | a row ends early nowhere when it has no amount in front of a unit before its own and no next number behind it |
| `VerticalHeader.ReadTokens` | app/document_processing/parsers.py:1099-1117 | the header search, its window and the footer stop yield the specified de-duplicated tokens |
| `VerticalHeader.HeaderAt` | app/document_processing/parsers.py:1099-1110 | the first line that opens a header decides, and the header ends at its last closing label within reach |
| `RfqText.ScanItems` | app/document_processing/parsers.py:1121-1145 | the fallback scan with its two row shapes computes the specified items |
| `RfqText.ExtractItems` | app/document_processing/parsers.py:1099-1145 | header, table, search and fallback scan together |
| `RfqText.ScanRestoresIff` | app/document_processing/parsers.py:1121-1145 | the fallback scan restores all printed rows if and only if no neighbouring tokens are equal and no cell is blank |
| `RfqText.ItemsHaveNumbers` | app/document_processing/parsers.py:1118-1145 | whichever of the two read it, an item has a number |
| `RfqText.TooFewIff` | app/document_processing/parsers.py:1013-1019 | for every token list and whatever one-line rows announce: the items are fewer than the expected count if and only if a one-line row announces more, or the search found nothing and the scan read a number above its count |
| `RfqText.PageRoundTripIff` | app/document_processing/parsers.py:1099-1145 | a whole page with a table that fits: the items are the printed rows if and only if every row is printable and the last does not clash, or no neighbours are equal, no cell is blank and nothing behind a "1" is readable, so that the fallback scan is reached |
| `RfqText.WrappedPage` | app/document_processing/parsers.py:1099-1174 | and rows wrapped over many lines come back from a whole page |
| `QuoteTable.ExtractQuoteItems` | app/document_processing/parsers.py:1070-1096 | the loop over all indexes computes the specified items on every token list |
| `QuoteTable.ReadsKept` | app/document_processing/parsers.py:1070-1096 | for all printable rows exactly the rows whose amount is not the next number are read, with their numbers |
| `QuoteTable.RoundTrip` | app/document_processing/parsers.py:1022-1096 | all rows are restored, price = amount collapsed into one token included, if and only if no amount equals the next number |
| `QuoteTable.KeptAll` | app/document_processing/parsers.py:1022-1031 | no row is dropped if and only if no amount equals the next number |
| `QuoteTable.ExpectedCountIsRowCount` | app/document_processing/parsers.py:996-1010 | rows numbered 1..n give the largest number n and n items |
| `QuoteText.ExtractItems` | app/document_processing/parsers.py:1050-1096 | header, table and rows together |
| `QuoteText.HeadersEndTogether` | app/document_processing/parsers.py:978-995 | on a page that prints the six labels in order, the search of the counting scan and that of the extraction start at different lines and end at the same one, so both read the same tokens |
| `QuoteText.PageRoundTrip` | app/document_processing/parsers.py:978-1096 | a whole page with a table that fits: the items are the printed rows, and the counted numbers theirs, if and only if no amount equals the next number |
| `QuoteText.PageIsComplete` | app/document_processing/parsers.py:783-807 | with rows numbered 1..n the expected count is then n, so no missing-line-items warning |
| `QuoteText.HeaderOnce` | app/document_processing/parsers.py:1050-1063 | with each label on one line, in any order, a search finds the header if and only if the label it starts at stands first |
| `QuoteText.HeadersAgreeIff` | app/document_processing/parsers.py:978-1063 | and the searches of count and extraction come to the same end, or both to none, if and only if the number label standing first and the description standing before quantity, unit, price and amount go together; where only the number label stands first, rows are counted below a header the extraction never finds |
| `WorkRepository.WorkTrackingRepository.constructor` | app/repositories/postgres_work_tracking_repository.py:12-15 | empty tables; at least one hour until a work item is overdue |
| `WorkRepository.WorkTrackingRepository.EnsureForAssignment` | app/repositories/postgres_work_tracking_repository.py:311-374 | create or reassign: a new assignee resets the tenure, the same one keeps it; the new tables and the outcome are those of the transaction |
| `WorkRepository.WorkTrackingRepository.AcknowledgeIfAssignee` | app/repositories/postgres_work_tracking_repository.py:60-106 | only the assignee acknowledges, only from assigned, and anyone else changes nothing |
| `WorkRepository.WorkTrackingRepository.SetInProgress` | app/repositories/postgres_work_tracking_repository.py:108-150 | the toggle, its refusals, its no-op cases and its two events |
| `WorkRepository.WorkTrackingRepository.InitiateReply` | app/repositories/postgres_work_tracking_repository.py:152-196 | the reply is dated and the item moves to in progress unless completed or responded |
| `WorkRepository.WorkTrackingRepository.Complete` | app/repositories/postgres_work_tracking_repository.py:198-228 | completion, once |
| `WorkRepository.WorkTrackingRepository.LinkOutbound` | app/repositories/postgres_work_tracking_repository.py:393-457 | one sent message is linked to the picked work item or to none |
| `WorkRepository.WorkTrackingRepository.WriteOutbound` | app/repositories/postgres_work_tracking_repository.py:246-300 | upsert of one sent message, keeping an existing link |
| `WorkRepository.WorkTrackingRepository.WriteOutboundAndLink` | app/repositories/postgres_work_tracking_repository.py:230-300 | the loop over a batch and its linked count |
| `WorkModel.PickFinds` | app/repositories/postgres_work_tracking_repository.py:403-425 | a work item is found if and only if some item is eligible |
| `WorkLog.StepKeeps` | app/repositories/postgres_work_tracking_repository.py:60-457 | every transaction keeps the row invariant and the agreement of rows and log, the response columns only of items whose response went unlogged excepted |
| `WorkLog.LogRefinesRows` | app/repositories/postgres_work_tracking_repository.py:60-497 | after any run whatsoever each row is consistent (completed iff dated, responded only after a reply, due = assigned + the configured time, ...), its assignee, acknowledgement, reply and completion equal the fold of its events since the last change of assignee, and so do its status and response dates while no response of that tenure was left out of the log |
| `WorkFullLog.FullLogRefinesRows` | app/repositories/postgres_work_tracking_repository.py:393-497 | after any run the log is what the unique index keeps of all events offered to it, and with all of them in its place every column of every row is the fold of the log, without exception |
| `WorkFullLog.ResponsesAgreeIff` | app/repositories/postgres_work_tracking_repository.py:428-497 | after any run, for every row: status and response dates are the fold of its tenure in the kept log if and only if the first and the last response of the tenure, dropped ones counted, are dated like the first and the last logged one; so if none was dropped |
| `WorkLog.RowsConsistent` | app/repositories/postgres_work_tracking_repository.py:60-457 | the row invariant alone, in every reachable state |
| `OutboundLinks.StepLinks` | app/repositories/postgres_work_tracking_repository.py:246-300 | no transaction changes or removes a link; exactly the reported number is added |
| `OutboundLinks.LinksConserved` | app/repositories/postgres_work_tracking_repository.py:230-300 | over any run the reported counts add up to the linked rows, and these are the logged responses and the links whose item had a response to that message id already |
| `OutboundLinks.LinksLoggedIff` | app/repositories/postgres_work_tracking_repository.py:393-497 | links and logged responses are equally many if and only if no link of the run met an item with a response to that message id |
| `OutboundLinks.OneAccountLogsAll` | app/repositories/postgres_work_tracking_repository.py:393-497 | which is so when no message id is read from two accounts |
| `OutboundLinks.LinkShape` | app/repositories/postgres_work_tracking_repository.py:393-457 | a link goes to an open item of the same thread, to the latest reply not after the sending, and changes that row alone |
| `OutboundLinks.LinkComplete` | app/repositories/postgres_work_tracking_repository.py:393-457 | a message is linked if and only if it was unlinked and something is eligible |
| `OutboundSync.SyncQuietIff` | app/repositories/postgres_work_tracking_repository.py:230-300 | in any state and for any batch, unreadable dates included: a sync links nothing if and only if every message is linked already or has no eligible item at its date, the clock where it has none |
| `OutboundSync.SyncLinksNothingIff` | app/repositories/postgres_work_tracking_repository.py:230-300 | and exactly then it changes no work item and no event |
| `OutboundSync.ResyncIsQuiet` | app/repositories/postgres_work_tracking_repository.py:230-300 | syncing a processed batch again after any interleaving links nothing and changes no row and no event, provided replies initiated in between are later than its dates |
| `OutboundSync.RunKeepsSettled` | app/repositories/postgres_work_tracking_repository.py:152-457 | the items an old message may link to never grow, whatever else happens, while replies are initiated later than its date |
| `OutboundSync.LoggedUnlessRepeated` | app/repositories/postgres_work_tracking_repository.py:428-497 | a link always dates the row, and is logged exactly when its item has no response to that message id yet |
| `OutboundSync.TwoAccountsLoseAResponse` | app/repositories/postgres_work_tracking_repository.py:459-497 | one message id in two accounts: two links, one event, and a row dated as the second account says while the log has the date of the first |
| `OutboundSync.LatestReplyIsUnique` | app/repositories/postgres_work_tracking_repository.py:403-425 | in every reachable state the order of the query decides: replies are never equally late |
| `OutboundSync.LogIsUnique` | app/repositories/postgres_work_tracking_repository.py:459-497 | no reachable log holds two responses to one message for one item, as the unique index demands |
| `OutboundSync.OnlyTheAssigneeActs` | app/repositories/postgres_work_tracking_repository.py:60-228 | acknowledging, toggling, replying and completing change anything only for the assignee of an existing row |
| `OutboundSync.StepForward` | app/repositories/postgres_work_tracking_repository.py:60-228 | within a tenure a completed item stays completed and a responded one only completes |
| `OutboundSync.TenureForward` | app/repositories/postgres_work_tracking_repository.py:60-457 | the same over whole runs in which the assignee stays |
| `OutboundSync.ResponsesJustified` | app/repositories/postgres_work_tracking_repository.py:403-457 | every logged response of any run was made to an open item of the thread whose reply was not after the sending |
| `RoutingPolicy.RetrievalEvidence` | app/routing/policy.py:89-101 | per user the best history and similarity score; absent users have none, blank ids no bucket |
| `RoutingPolicy.ScoreUsers` | app/routing/policy.py:40-58 | one scored candidate for each user, in order |
| `RoutingPolicy.Review` | app/routing/policy.py:60-73 | the review conditions in order |
| `RoutingPolicy.Score` | app/routing/policy.py:32-79 | scoring, stable sort and review give the specified decision |
| `RoutingLaws.RankingSorts` | app/routing/policy.py:59 | the ranking is a permutation in falling order |
| `RoutingLaws.AutoAssignLeads` | app/routing/policy.py:60-79 | an automatic assignment selects a user who reaches the threshold and leads every other by the margin |
| `RoutingLaws.LeaderIsAssigned` | app/routing/policy.py:60-79 | and conversely such a leader is assigned unless a condition independent of scores fails |
| `RoutingLaws.OrderIndependent` | app/routing/policy.py:40-79 | permuting the users changes neither decision, confidence nor reasons, nor with a positive margin the selected user |
| `RoutingLaws.MoreEvidenceKeepsAssignment` | app/routing/policy.py:40-101 | more evidence for the selected user never turns an assignment into a review or another user |
| `RoutingLaws.TotalInUnit` | app/routing/policy.py:45-58 | scores stay between 0 and 1 |
| `RoutingLaws.HeavyComponentNeeded` | app/routing/policy.py:17-25 | a component heavier than what the threshold leaves, beyond rounding, must be positive |
| `RoutingLaws.LightComponentSpared` | app/routing/policy.py:17-25 | a component no heavier than that can be missing |
| `RoutingLaws.DefaultsNeedThreeMatches` | app/routing/policy.py:10-25 | by default an assigned user matches customer, product and business type together |
| `RoutingLaws.RetrievalMovesLittle` | app/routing/policy.py:45-58 | retrieval alone moves a score by at most 0.15 and the rounding |
| `Rounding.RoundError` | app/routing/policy.py:45-58 | rounding moves a score by at most half a unit of the fourth decimal |
| `Rounding.RoundMonotone` | app/routing/policy.py:45-58 | rounding keeps the order of scores |
| `SyntheticDataset.Emails` | app/evaluation/synthetic_dataset.py:165-200 | the generator loop yields the specified mail at each position |
| `SyntheticDataset.CollectOwned` | app/evaluation/synthetic_dataset.py:134-150 | each owner is collected with exactly the values its mails show |
| `SyntheticDataset.Capabilities` | app/evaluation/synthetic_dataset.py:134-163 | there is a capability row for an owner, type and value if and only if one of its mails shows it |
| `SyntheticDataset.NamesDistinct` | app/evaluation/synthetic_dataset.py:104-112 | generated customer names stay distinct after normalization |
| `SyntheticDataset.OneOwner` | app/evaluation/synthetic_dataset.py:165-200 | mails of one customer, up to normalization, have one owner |
| `SyntheticDataset.OwnerMatches` | app/evaluation/synthetic_dataset.py:134-163 | an owner matches its mails in all four capability types |
| `SyntheticDataset.OthersMissCustomer` | app/evaluation/synthetic_dataset.py:134-163 | nobody else matches the customer |
| `SyntheticDataset.OwnerLeads` | app/evaluation/synthetic_dataset.py:134-235 | for every configuration with non-empty lists the expected assignee scores at least 0.85 and leads every other by at least 0.15, whatever the evidence |
| `SyntheticDataset.OwnerIsAssigned` | app/routing/policy.py:32-79 | so every such clear mail is assigned to its owner with the default settings |
| `DecisionAgent.AgentOutput.PostProcess` | app/agents/decision_agent.py:100-173 | the whole post-processing of an answer, field by field |
| `DecisionAgent.ReviewExactly` | app/agents/decision_agent.py:121-173 | an answer passes without review if and only if confident, unflagged, free of contradictions and unsupported claims, and true to the single grounded type; its confidence is untouched |
| `DecisionAgent.HighIsGrounded` | app/agents/decision_agent.py:295-308 | an answer is urgent or important if and only if the model said so and a signal supports it |
| `DecisionAgent.UniqueKeepsElements` | app/agents/decision_agent.py:100-173 | de-duplicated lists keep every element once |
| `DecisionNodes.RunState.EvaluateStored` | app/services/mail_decision_runtime_service.py:277-293 | review if and only if no context is stored, routing blocked from then on if and only if it was or the stored context is insufficient; context, answer, routing, assignment and notifications are left alone |
| `DecisionNodes.RunState.Decide` | app/services/mail_decision_runtime_service.py:295-331 | the decision node and its review exits |
| `DecisionNodes.RunState.Answer` | app/services/mail_decision_runtime_service.py:295-331 | the processed answer or, when the agent fails, the fallback, with the retrieval blocker on top |
| `DecisionNodes.RunState.Rank` | app/services/mail_decision_routing_service.py:51-108 | the routing node and its review exits |
| `DecisionNodes.RunState.Run` | app/workflows/mail_decision/orchestrator.py:50-86 | the nodes in their order from the stored one on, the stop at review, and a failure before, within or behind any handler, at the first or the last save, with or without the failed state being saved |
| `DecisionGate.Gate` | app/services/mail_decision_routing_service.py:51-136 | whatever the model returns and whatever is stored: a run that does not fail forwards if and only if facts and an unblocked context are there, the answer passes, the policy finds a clear leader and the mail was not forwarded before, and then to that user alone; if only the last is missing it fails, otherwise it ends in review |
| `DecisionGate.ResumedGate` | app/workflows/mail_decision/orchestrator.py:50-86 | however often a run fails anywhere, loses its state, goes to review and is resumed, with other mails read, answers, users and settings each time: the mail is forwarded at most once, and only on a passing answer, a sufficient context and a policy decision of these attempts; a completed run has forwarded it to the user it assigned |
| `DecisionGate.ForwardIsSafe` | app/services/mail_decision_routing_service.py:59-136 | over any such attempts, completed or not: whoever was forwarded the mail was listed in the deciding attempt, reached its threshold, on a real answer with confidence at least 0.78, no contradictions, no unsupported claims and the grounded type; never on a fallback |
| `DecisionGate.ForwardHasEvidence` | app/services/mail_decision_runtime_service.py:277-293 | and with contexts that retrieval made, on selected evidence that names an assignee and holds a hit of at least 0.65 |
| `DecisionGate.ForwardedIncompleteIff` | app/repositories/postgres_routing_repository.py:526-602 | over any attempts on a mail not forwarded before: it is forwarded without the run being completed if and only if an attempt would have completed but failed behind the effects of the store node; no later attempt completes then, as the notification key is unique |
| `DecisionGate.ClearedFailsBehind` | app/workflows/mail_decision/orchestrator.py:70-78 | any attempt that would forward, failing at its last save, leaves the mail forwarded and the run not completed |
| `DecisionGate.ForwardedAgain` | app/repositories/postgres_routing_repository.py:100-155 | what an attempt does to a forwarded mail: up to the store node what it would do to any mail; there it fails, having taken the assignment back to assigned and to the user it selected itself |
| `Retrieval.SufficientMonotone` | app/retrieval/service.py:96-130 | evaluation is monotone in the hits, and sufficient if and only if nothing is missing |
| `Retrieval.AgenticRetrievalService.SelectHits` | app/retrieval/service.py:132-144 | the per-key overwrite loop, the stable sort and the cut compute the specified selection |
| `Retrieval.AgenticRetrievalService.RunPlan` | app/retrieval/service.py:48-60 | the hits of a cycle are those of its queries, in order |
| `Retrieval.AgenticRetrievalService.Execute` | app/retrieval/service.py:37-83 | the retry loop computes the specified cycles and judges the selection |
| `RetrievalLaws.LoopBounds` | app/retrieval/service.py:34-83 | one to three cycles, at most 36 queries; all but the last insufficient, the last sufficient or at the limit |
| `RetrievalRetry.RetryBroadensIff` | app/retrieval/planner.py:10-77 | in any run the later cycles ask the broadening query if and only if the facts alone give at most ten queries; otherwise the cut to twelve removes it |
| `RetrievalRetry.RetryIsIdle` | app/retrieval/service.py:37-83 | with twelve queries from the facts and steady retrievers all cycles ask and find the same, and the selection is that of the first |
| `RetrievalLaws.BestPerKeyCorrect` | app/retrieval/service.py:132-138 | one hit for each key that occurs, and a best one |
| `RetrievalLaws.SelectionIsTopK` | app/retrieval/service.py:132-144 | distinct keys, best hits, and no key left out that outranks a kept one or while there was room |
| `RetrievalLaws.StrongSurvivesIff` | app/retrieval/service.py:132-144 | for all hits and limits: a hit of at least 0.65 is selected if and only if some such hit, best of its key, has fewer than `limit` others ahead of it |
| `RetrievalLaws.StrongHitSurvives` | app/retrieval/service.py:132-144 | so without rerank scores such a hit is never lost |
| `Bags.SortPlaces` | app/retrieval/service.py:139-143 | the stable sort puts each element behind exactly those that score more and the equal ones in front of it |
| `RetrievalLaws.RerankLosesStrongHit` | app/retrieval/service.py:132-144 | with them it can be, when a weak hit is ranked above it |
| `RetrievalLaws.FinalSufficientMeansLast` | app/retrieval/service.py:61-83 | a sufficient final context means the last cycle was sufficient |
| `AssignmentContext.CandidateContexts` | app/retrieval/assignment_context.py:95-128 | per user exactly its evidence rows and their strongest score |
| `AssignmentContext.Build` | app/retrieval/assignment_context.py:28-59 | the rows in order without repeats, and their contexts |
| `AssignmentContext.SelectionYieldsOneRowEach` | app/retrieval/assignment_context.py:28-59 | every selected hit yields exactly one row |
| `AssignmentContext.EvidenceIsPartitioned` | app/retrieval/assignment_context.py:95-128 | rows with an assignee are partitioned by user |
| `AssignmentContext.AggregationsAgreeIff` | app/retrieval/assignment_context.py:95-128 | for any selection, spellings and rerank scores: the strongest score of a user's context equals the policy's larger history or similarity score if and only if each rank counted for the user is reached by a score under the exact id and each such score by a counted rank; without rerank scores, if and only if no other spelling of the id scores higher |
| `AssignmentContext.AggregationsAgree` | app/routing/policy.py:89-101 | so they agree for hits without rerank scores and with canonical ids |
| `AssignmentContext.SpellingSplitsUser` | app/retrieval/assignment_context.py:61-93 | a single hit under another spelling counts for the context and not for the policy |
| `EvaluationMetrics.MacroF1` | app/evaluation/metrics.py:29-39 | the loop computes the mean of the per-label F1 values |
| `EvaluationMetrics.Confusion` | app/evaluation/metrics.py:460-465 | the increments leave in each cell the number of such cases |
| `EvaluationMetrics.PerTypeF1` | app/evaluation/metrics.py:460-479 | the per-type values computed from the matrix |
| `EvaluationMetrics.MatrixAgrees` | app/evaluation/metrics.py:466-479 | per label the matrix gives the F1 of the lists |
| `EvaluationMetrics.TwoF1Agree` | app/evaluation/metrics.py:29-39 | the mean of the per-type values is the macro F1 |
| `EvaluationMetrics.SumsAreCounts` | app/evaluation/metrics.py:466-475 | row and column sums are expected and predicted counts, without the diagonal the misses and false alarms |
| `EvaluationMetrics.TotalsCountCases` | app/evaluation/metrics.py:460-479 | the sums of all rows, of all columns and of the diagonal count cases and hits; false positives = false negatives = cases - hits |
| `EvaluationMetrics.F1InUnit` | app/evaluation/metrics.py:25-39 | every F1 is between 0 and 1, and positive if and only if something was predicted right |
| `Dotenv.LoadEnv` | app/runtime.py:13-22 | the reading loop computes the specified environment |
| `Dotenv.EnvFile.UpdateLines` | app/server.py:3028-3036 | the pass over the existing lines, or the failure of a value to be written |
| `Dotenv.EnvFile.Persist` | app/server.py:3024-3040 | the file is rewritten as specified if every value can be quoted, and untouched if one cannot |
| `DotenvLaws.ReadIsFirstWins` | app/runtime.py:13-22 | the environment wins over the file, an earlier line over a later one |
| `DotenvLaws.AssignmentReadsBack` | app/server.py:3043-3050 | a written line is read back as its key and value, blanks and quotes included |
| `DotenvLaws.UpdateReads` | app/server.py:3028-3036 | the pass gives every known key its new value, keeps all others, and leaves over exactly the unknown keys |
| `DotenvText.KeptReads` | app/server.py:3040 | stripping the end of the text changes no entry |
| `DotenvText.SplitWritten` | app/server.py:3040 | a written file splits back into its lines |
| `DotenvRoundTrip.PersistedReads` | app/server.py:3024-3040 | after a write every written key has its value and every other key its old one |
| `DotenvRoundTrip.StartAfterPersist` | app/runtime.py:13-22 | a process started afterwards sees exactly that behind its own environment |
| `DotenvRoundTrip.RoundTrip` | app/server.py:3043-3050 | whatever the file held, all values are read back if and only if none contains a line break of any kind |
| `DotenvRoundTrip.AcceptedButLost` | app/server.py:3044 | a vertical tab, a form feed or a Unicode line break is accepted and the value lost |
| `DotenvRewrite.PersistIsIdempotentIff` | app/server.py:3024-3040 | whatever the file held: writing the same values again changes nothing if and only if none of them has a line break of any kind |
| `DocumentFields.NormalizeLineItem` | app/document_processing/parsers.py:625-643 | the loop over the cells of a row |
| `DocumentFields.FieldCollector.Collect` | app/document_processing/parsers.py:549-608 | the recursive walk over an arbitrary payload fills the specified fields |
| `DocumentFields.FilterPredefinedFields` | app/document_processing/parsers.py:524-546 | the filter yields the specified entries |
| `FormLabels.FormsWellFormed` | app/document_processing/parsers.py:263-284 | the labels of the four forms are trimmed, distinct and no special key, and rows come last |
| `FilterLaws.FilterShape` | app/document_processing/parsers.py:524-546 | for every payload: only labels of the form, once each, in its order, no blank value, rows only as a non-empty list of a form with a table |
| `FilterAgain.FilterFlat` | app/document_processing/parsers.py:549-614 | what filtering keeps of fields that do not nest: the scalar headers as they are and the rows normalised |
| `FilterAgain.CollectDescends` | app/document_processing/parsers.py:549-614 | a collected header was there before, is a scalar, or lies strictly inside the payload |
| `FilterAgain.NormalizeRowsKept` | app/document_processing/parsers.py:625-643 | a normalised row is never dropped by another pass, and a table keeps its length if and only if every row has a filled column |
| `FilterAgain.WonTwice` | app/document_processing/parsers.py:646-647 | stripping the won sign is not idempotent |
| `RowFixpoint.StripWonFixedIff` | app/document_processing/parsers.py:646-647 | stripping the won sign leaves exactly the trimmed texts alone in which no digit is followed by a droppable sign |
| `RowFixpoint.RowsFixedIff` | app/document_processing/parsers.py:625-643 | normalisation leaves a table alone if and only if each row is an object with distinct filled columns and settled prices |
| `FilterFixpoint.FilterIdempotentIff` | app/document_processing/parsers.py:524-614 | for every payload: filtering the output again changes nothing if and only if its headers are scalars and the cells of its rows are as just said |
| `FieldValidation.ValidateFields` | app/document_processing/parsers.py:489-521 | the validation passes compute the specified fields |
| `FieldValidation.MergeFilled` | app/document_processing/parsers.py:503-509 | the merged fields have distinct labels and no empty value, whatever was supplied |
| `FieldValidation.MergeGet` | app/document_processing/parsers.py:503-509 | a field that was there wins over a recovered one, for any filtered payload |
| `NestedHeaders.PassHeader` | app/document_processing/parsers.py:524-614 | a pass of the filter leaves of each label what the last header that sets it sets it to, however headers nest others |
| `NestedHeaders.ScalarThroughIff` | app/document_processing/parsers.py:549-614 | a scalar header goes through a pass as it is if and only if no header behind it sets its label, or the last one that does sets the same value |
| `NestedHeaders.NestedHeader` | app/document_processing/parsers.py:489-521 | for every payload, every header after validation: what the last pass makes of it |
| `NestedHeaders.NestedHeaderKeptIff` | app/document_processing/parsers.py:489-521 | a supplied header keeps its value if and only if there is no second pass or the last header of the last pass that sets its label sets that value |
| `RowRecovery.RowsNeverLost` | app/document_processing/parsers.py:739-780 | for every payload, lists among the headers included: validation keeps every row that can be normalised, and, where the supplied rows are of use, completes the table from the text up to the announced number |
| `RowRecovery.RfqRowsComplete` | app/document_processing/parsers.py:810-826 | extraction and validation together, for every payload whose supplied rows are of use, every token list and any one-line rows: the missing-line-items warning is raised only if a one-line row announces more than the table and the supplied rows hold, or the fallback scan read a number above its count |
| `AnalysisHistory.AttachmentAnalysisRepository.SaveResult` | app/repositories/postgres_attachment_analysis_repository.py:15-72 | one save: the current row is preserved from, retired, and replaced |
| `AnalysisHistory.CurrentIsLatest` | app/repositories/postgres_attachment_analysis_repository.py:23-72 | after any run an attachment's current row depends on its own saves alone and is its only current one |
| `FieldPreservation.PreservedFields` | app/repositories/postgres_attachment_analysis_repository.py:124-146 | preserved fields are shown through the filter once more |
| `FieldPreservation.CurrentShowsFound` | app/repositories/postgres_attachment_analysis_repository.py:124-163 | through any series of saves of one type the current analysis shows exactly the headers of the newest one that found any, as many rows, and the same cells where those rows are normal |
| `FieldPreservation.OnceFoundAlwaysThere` | app/repositories/postgres_attachment_analysis_repository.py:124-163 | once the current analysis has business fields it always has |
| `FieldPreservation.SecondPassEmptyIff` | app/repositories/postgres_attachment_analysis_repository.py:153-163 | a second pass leaves something if and only if a header is a scalar or a row has a filled column |
| `FieldPreservation.SurvivesIff` | app/repositories/postgres_attachment_analysis_repository.py:124-163 | so fields survive later empty analyses if and only if that holds of them |
| `FieldPreservation.ListHeaderLost` | app/repositories/postgres_attachment_analysis_repository.py:124-146 | on every form a list of values for one label is found, shown, and lost by the next empty analysis |

## Left out

- Database, network, mail, language-model, OCR and vector-search calls: their results are arbitrary parameters. Locking
  and concurrency inside a transaction: a transaction is one step.
- The web server apart from the settings file, all templates, dashboards and labels: presentation.
- Tables with one row a line (parsers.py:686-720, 829-913, 936-975): of these only the numbers they announce enter, as any
  list. A vertical table longer than the 79 or 119 lines the program reads is cut by it, so the page round trips are about
  tables that fit; what stands before a table is any text that opens no header.
- `str.isalpha`, `str.isdigit` and `\d` are limited to ASCII and, for letters, Hangul syllables; the patterns for table
  footers, currencies and the won sign are parameters of the quote parser, the won sign is modelled exactly in the field
  filter.
- WorkLog.LogRefinesRows: about rows the repository writes, not about rows the migration of
  db/postgresql/006_work_reply_tracking.sql backfilled without completion dates and events. The partial unique index and
  the unique routing assignment of that file are modelled; its recipient, subject and reason columns are not, and a work
  item is known by its mail.
- Work tracking: clock readings and the account id are parameters, because the call at line 503 does not fit the method
  it names; the order of the link query is completed by the item id, which is proved never to matter.
- Routing: scores are exact numbers, binary floating point is not modelled; case folding is that of ASCII letters; the
  formatted values in the reason texts are left out. The flag of the classification is not read by routing, as in the
  program, only that of the answer.
- DecisionNodes.RunState.Run: the five nodes that read the mail, extract facts and retrieve are one node with arbitrary
  results. One run of a mail is followed; an earlier run of the same mail enters as a state in which it was forwarded, a
  completed run is not started again, and attempts do not overlap.
- Decision: summary and action texts, generation mode and requested actions; the keyword patterns behind urgency and
  importance are arbitrary predicates.
- SyntheticDataset.Capabilities: rows are a set, their priority order is not modelled; identifiers stand for the text
  behind a name-based UUID, taken to be injective; attachments and search cases are left out.
- RetrievalLaws.RerankLosesStrongHit: an example beside the general RetrievalLaws.StrongSurvivesIff, as are
  AssignmentContext.SpellingSplitsUser and OutboundSync.TwoAccountsLoseAResponse beside AssignmentContext.AggregationsAgreeIff
  and WorkFullLog.ResponsesAgreeIff.
- Retrieval: filters, traces, prompt flags and the wording of evaluation reasons.
- AssignmentContext.CandidateContexts: dates, confidence, conflicts, warnings and the final order of contexts are not
  modelled.
- EvaluationMetrics.TotalsCountCases: labels are any listing without repeats instead of the sorted one; the other
  counters of the report and the failure classification are left out.
- Dotenv.LoadEnv: an empty key or a NUL character, which the operating system refuses, is not modelled as an error.
- RowRecovery.RfqRowsComplete: rows are of use when there are none, when one has a filled column, or when no header nests
  anything; rows without any filled column beside a header that nests other fields are not covered, nor by the second half
  of RowRecovery.RowsNeverLost.
- FieldPreservation.CurrentShowsFound: about analyses with scalar headers and rows with a filled column;
  FieldPreservation.SurvivesIff adds lists of scalars, and what they lose.
- Field labels from free text (parsers.py:463-487, 660-683) are an arbitrary extraction; unknown document types, whose
  payload the filter returns as it is, appear only in saving.
