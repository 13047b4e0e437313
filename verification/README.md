# VeriPay: verified models of the risk pipeline

VeriPay scores card payments: two models and a customer graph give risk components, fusion turns them into one
score, a cost-aware engine decides, verification sessions and analysts follow up, and a monitor retrains the models.
This project models the parts of it whose correctness spans many calls, and proves what they promise for every
input, every run and every reachable state.

| module | what it models |
|---|---|
| `TransactionLog`, `CommunitySearch`, `GraphFeatures`, `GraphStore` | the incrementally indexed customer and merchant graph: its deduplicated log, windows, co-occurrence counts, and the capped community search against reachability |
| `Octets`, `Base64Url`, `VerificationToken`, `Envelope` | the unpadded base64url code (section 5 of RFC 4648) with the lenient decoder of Python's library, the signed compact token with all its accepted spellings, and the XOR-stream envelope |
| `NumberCheck` | the number scanner of the case report and the check of its figures against the payload |
| `Redaction` | the recursive redactor of personal data |
| `RiskPolicy`, `RiskFusion`, `DecisionEngine` | tiers and bands, the renormalised weighted mean, and the argmin over cost lines with its overrides |
| `VerificationSessions`, `VerificationService` | verification sessions as a transition system, and the objects that implement it |
| `ModelRegistry`, `Drift` | the registry and its artefact directories with the promotion gate over whole runs of retrains, the observation window, and the population stability index |
| `Sorting`, `Profiles`, `Features`, `BaselineCausality`, `HourCausality` | the customer profile store with its drift detection, the two feature engines, and what later rows can do to the baseline |
| `Adjustments`, `Analyst`, `AnalystRuns`, `AnalystServices`, `AnalystOrchestrator`, `FeedbackStatistics` | the analyst orchestrator: adjustments, one evaluation, the four books it keeps over whole runs, and its statistics |
| `Rounding`, `Wrappers` | rounding half to even, options and results |

Objects whose methods change fields in place are classes, and each method is proved equal to a transition on values
or to a specification function; what the system promises is then proved about those. Amounts and scores are real
numbers and timestamps are integers in microseconds. Services outside the repository's arithmetic (models, the graph
service as the orchestrator calls it, fusion and decision over the network, investigation) are functions that may
answer anything or fail; keyed digests, JSON, logarithms, great-circle distances and text normalisation are function
parameters with only the laws that are needed.

`dafny verify dfyconfig.toml` checks everything.

## Where the code differs from what is said about it

The model follows the code. Each difference below names the lemma that states it, where there is one with the exact
condition under which the promise holds.

- The feature window of the graph is said to count from the customer's latest transaction; it counts from the latest
  of all customers. Both give the same graph exactly when no transaction lies between the two cutoffs
  (`TransactionLog.WindowAsDocumentedExactly`), and a customer looks isolated exactly when its own latest transaction
  is before the common cutoff (`GraphFeatures.IsolatedExactly`), which others bring about alone
  (`GraphFeatures.OthersIsolate`, `GraphFeatures.NeighboursForgotten`).
- The community search is said to return every reachable customer; it does so exactly when no layer past the cap leads
  to a further one (`CommunitySearch.WholeExactly`), so always within the cap (`CommunitySearch.CommunityComplete`),
  and not for one customer more than the cap (`CommunitySearch.CapLosesCustomer`).
- Token and envelope texts are decoded leniently, so an issued token has further spellings that the signer accepts
  (`VerificationToken.RespellingsExactly`, `VerificationToken.EveryTokenRespelled`); sessions take none of
  them whose digest differs from the issued one's (`VerificationSessions.SpellingBindsExactly`).
- A worse retrain is said never to replace a good model. Over all runs a metric of the champion is safe exactly when it
  is ROC-AUC, every retrain reports ROC-AUC, and the tolerance is at most zero (`ModelRegistry.NeverErodesExactly`). With
  ROC-AUC reported the loss is bounded by the number of promotions (`ModelRegistry.ErosionBound`), which is reached
  (`ModelRegistry.ErosionReached`); one retrain without metrics removes the bound (`ModelRegistry.MissingMetricOpensGate`).
- A registered version is meant to refer to its own artefacts; it does exactly under the condition of
  `ModelRegistry.PromotedOwnsExactly`, and a retrain without files is registered over those of the version before it
  (`ModelRegistry.BorrowedArtefacts`).
- A later transaction is said never to change an earlier feature vector; that holds of the vector the models get, not of
  the three rich features that read the baseline (`Features.BaselineCausalExactly`). The ratio to the median, and with it
  the whole of the sixteen features, is causal whatever was spent exactly when nothing is stored at or after the
  transaction (`BaselineCausality.RatioCausalExactly`, `BaselineCausality.VectorCausalExactly`); the hour deviation also
  when there is just one such row and one earlier one (`HourCausality.DeviationCausalExactly`).
- Requests may come without a time zone; without features of their own they are scored only for a customer without rows
  (`AnalystServices.FailuresExactly`, `AnalystServices.SecondZonelessRaises`).
- An approved session is meant to have passed its tier's checks; a completion that asks for another outcome than
  approval or denial skips them (`VerificationSessions.ApprovalMeansCheckedExactly`).
- The redactor's paths do not always tell two entries apart (`Redaction.PathsCanCoincide`); over keys of one alphabet
  they do exactly when it lacks the dot and cannot spell an index (`Redaction.TellsApartExactly`), and an empty key is
  always ambiguous (`Redaction.EmptyKeyCollides`).
- A rejected response leaves its history row behind (`AnalystRuns.OrphanExactly`), and no later call mends that: rows and
  scores match after a run exactly when nothing was rejected in it (`AnalystRuns.RunOrphanExactly`).
- The report of a heightened alert is flagged for that alert's own sentence exactly when the payload prints no number from
  0.095 to 0.105 (`NumberCheck.HeightenedAlertFlagged`).
- The mandatory challenge of a decision request has no effect (`DecisionEngine.MandatoryChallengeIgnored`), and band and
  tier from one fusion bypass the tier matrix (`DecisionEngine.FusedBandBypassesMatrix`). The table of tier policies has
  no range for fractional scores between two tiers (`RiskPolicy.TableAgreesExactly`).

## Model

| member | source | states |
|---|---|---|
| TransactionLog.FirstWriteWins | ml/graph/extract.py:94-101 | an id is in the log exactly when it was observed, and holds the first transaction observed under it |
| TransactionLog.ConsistentReplay | ml/graph/extract.py:94-101 | the log of observations that never reuse an id for another content is exactly those observations |
| TransactionLog.OrderFreeIffConsistent | ml/graph/extract.py:94-107 | every order of the observations leaves the same log if and only if no id carries two contents |
| TransactionLog.ReachableExactly | ml/graph/extract.py:94-101 | exactly the logs without a repeated id are what some sequence of observations leaves |
| TransactionLog.VolumeUnion | ml/graph/extract.py:375-383 | amounts of disjoint sets of transactions add up, so summing in any order gives one volume |
| TransactionLog.WindowAsDocumentedExactly | ml/graph/extract.py:351-355 | the window is the documented one, back from the customer's own latest transaction, exactly when no transaction lies between that cutoff and the one taken from all customers |
| TransactionLog.WindowEmptyExactly | ml/graph/extract.py:351-355 | a known customer has no merchant in its window exactly when its own latest transaction is before the common cutoff; in the documented window it always has one |
| GraphStore.Store.constructor | ml/graph/extract.py:78-92 | a new store is empty and its indexes agree with its log |
| GraphStore.Store.Observe | ml/graph/extract.py:94-107 | one observation records the transaction unless its id is known, which is a no-op; all four indexes stay the projections of the log |
| GraphStore.Store.ObserveAll | ml/graph/extract.py:94-107 | after any sequence of observations the log is their replay and every index its projection |
| GraphStore.AddObservation | ml/graph/extract.py:101-107 | the four index updates together keep merchants, customers, events and flags equal to the projections of the longer log |
| GraphStore.Store.IsFlagged | ml/graph/extract.py:109-110 | the count threshold means that some kept transaction of the customer is flagged |
| GraphStore.Store.ScopedMerchants | ml/graph/extract.py:357-363 | with and without a window, the merchants of the customer in the transactions at or after the cutoff, which is taken from the latest of all timestamps |
| GraphStore.Store.ScopedCustomers | ml/graph/extract.py:365-373 | the same for the customers of a merchant |
| GraphStore.Store.EdgeVolume | ml/graph/extract.py:375-383 | the loop sums exactly the in-window transactions of the customer at the merchant |
| GraphStore.FindOwnNear | ml/graph/extract.py:395-403 | the innermost early-break loop finds whether the customer has an in-window event within 60 seconds |
| GraphStore.CountPeerEvents | ml/graph/extract.py:390-403 | the two inner loops count each peer event with such an event once |
| GraphStore.CountedTransactions | ml/graph/extract.py:385-404 | counting a merchant's events counts the in-window peer transactions there |
| GraphStore.Store.CoOccurrence | ml/graph/extract.py:385-404 | the nested loops count exactly the in-window peer transactions at the given merchants that have an own in-window transaction there within 60 seconds |
| GraphStore.LayerDone | ml/graph/extract.py:424-438 | one pass over a frontier either ends the search with whole layers or leaves exactly the next layer, and shrinks the unseen customers |
| GraphStore.Store.VisitLayer | ml/graph/extract.py:426-436 | the frontier loop sees the whole layer and collects neighbours only, all of those of the newly seen |
| GraphStore.Store.CommunityMembers | ml/graph/extract.py:415-439 | the search terminates and returns the whole layers up to the first at which the cap is passed or nobody is new |
| GraphStore.Store.ComponentStats | ml/graph/extract.py:406-413 | size and flagged ratio of that community |
| GraphStore.Store.PeersAndFanIn | ml/graph/extract.py:131-139 | the merchant loop gathers the other customers, and one visit per merchant and other customer |
| GraphStore.Store.Features | ml/graph/extract.py:119-157 | all eight features as functions of the log alone, also for a customer without merchants |
| GraphStore.Store.NetworkRiskScore | ml/graph/extract.py:160-185 | the score of those features; zero exactly when nobody else is linked to the customer |
| GraphStore.Store.MemberVolume | ml/graph/extract.py:305-308 | the edge volumes of one member add up to everything it spent in the window |
| GraphStore.Store.MemberTotals | ml/graph/extract.py:305-308 | the loop over members and merchants gathers all merchants and all volume |
| GraphStore.Store.CommunityTotals | ml/graph/extract.py:290-315 | the community's unrounded volume is everything its members spent in the window, at exactly the merchants they used |
| CommunitySearch.CommunitySound | ml/graph/extract.py:415-439 | everyone returned is reachable by a chain of shared in-window merchants, capped or not |
| CommunitySearch.WholeExactly | ml/graph/extract.py:415-439 | every reachable customer is returned, and nobody else, if and only if no layer that passes the cap leads to a further customer |
| CommunitySearch.CapLosesCustomer | ml/graph/extract.py:415-439 | a counterexample at every size past the cap, in a log that observations leave: n > 500 customers at one merchant, and a reachable customer beyond them who is not returned |
| CommunitySearch.CommunityComplete | ml/graph/extract.py:415-439 | a result of at most 500 members is exactly the set of reachable customers |
| CommunitySearch.CommunityPartition | ml/graph/extract.py:415-439 | within the cap every member of a community has that same community |
| CommunitySearch.CommunitiesDisjoint | ml/graph/extract.py:415-439 | two communities within the cap are equal or share nobody |
| CommunitySearch.DirectPeersReturned | ml/graph/extract.py:415-439 | every direct peer is returned even when the cap fires |
| CommunitySearch.NeighboursAreLinked | ml/graph/extract.py:430-435 | walking merchants and their customers finds exactly the linked customers |
| GraphFeatures.FanInCoversPeers | ml/graph/extract.py:131-141 | the fan-in is at least the number of peers |
| GraphFeatures.ClusterCoversPeers | ml/graph/extract.py:142-157 | cluster size is at least one more than the number of peers, even when the cap fires |
| GraphFeatures.ExposureBounds | ml/graph/extract.py:141-157 | flagged exposure is a proportion, positive only with a flagged peer |
| GraphFeatures.ScoreAvailability | ml/graph/extract.py:160-185 | the score is zero exactly without shared counterparties, and otherwise between 0.065 and 1 |
| GraphFeatures.ScoreMonotone | ml/graph/extract.py:170-185 | more exposure, peers, co-occurrences or fan-in never lower the score |
| GraphFeatures.ComponentStatsAgree | ml/graph/extract.py:406-413 | all members of a community within the cap report the same size and flagged ratio |
| GraphFeatures.FeaturesOrderFree | ml/graph/extract.py:94-185 | permuting observations of distinct ids changes no feature and no score of any customer in any window |
| GraphFeatures.IsolatedExactly | ml/graph/extract.py:119-127 | a known customer gets the features of an unknown one exactly when its latest transaction is before the common cutoff |
| GraphFeatures.OthersIsolate | ml/graph/extract.py:351-355 | one transaction of somebody else, later than the window after the customer's own latest, is enough for that, and the score becomes zero |
| GraphFeatures.NeighboursForgotten | ml/graph/extract.py:119-185 | a counterexample, in a log that observations leave: two customers at one merchant lose their score to a third elsewhere, while the documented window still shows both |
| Base64Url.RoundTrip | libs/veripay_common/veripay_common/security.py:26-31 | every byte string decodes back from its unpadded code, under the lenient decoder |
| Base64Url.EncodeShape | libs/veripay_common/veripay_common/security.py:26-27 | the code has the length four thirds rounded up, no padding, and only characters of the alphabet of section 5 of RFC 4648, so no dot |
| Base64Url.DecodePlain | libs/veripay_common/veripay_common/security.py:30-31 | of alphabet characters, exactly lengths of one more than a multiple of four are refused once the padding is restored |
| Base64Url.DecodeExactly | libs/veripay_common/veripay_common/security.py:30-31 | exactly the texts that decode to given bytes: ASCII ones whose data, read up to the first completed padded group or else to the end in whole groups, spell the bytes |
| Base64Url.DecodePadFree | libs/veripay_common/veripay_common/security.py:30-31 | without padding characters in it a text decodes to all its data exactly when its whole length, skipped characters included, restores enough padding |
| Base64Url.JunkExactly | libs/veripay_common/veripay_common/security.py:30-31 | skipped characters behind a code leave it readable exactly when the padding restored with them is still enough |
| Base64Url.StandardDecodesAlike | libs/veripay_common/veripay_common/security.py:30-31 | a code written with the standard alphabet's plus and slash decodes to the same bytes |
| Base64Url.EncodeAfterDecode | libs/veripay_common/veripay_common/security.py:26-31 | a decodable string is the code of its bytes exactly when it has alphabet characters only and its unused last bits are zero |
| VerificationToken.SplitThreeParts | libs/veripay_common/veripay_common/security.py:87 | splitting gives three parts exactly when the string is their concatenation with dots and the first two have none |
| VerificationToken.VerifyExactly | libs/veripay_common/veripay_common/security.py:85-102 | exactly which strings are accepted, and with which claims |
| VerificationToken.IssuedTokenLifetime | libs/veripay_common/veripay_common/security.py:70-102 | issuing succeeds exactly for lifetimes of 10 to 30 seconds; the token then gives the stamped claims back until the expiry and is refused as expired from that moment on |
| VerificationToken.RespellingsExactly | libs/veripay_common/veripay_common/security.py:85-102 | an issued token whose body is written in another way is accepted with the same claims exactly when the other text decodes to bytes of the same signature and claims |
| VerificationToken.RespelledVerifiesAlike | libs/veripay_common/veripay_common/security.py:85-102 | at every moment a token is worth what its body decodes to, however that is written |
| VerificationToken.EveryTokenRespelled | libs/veripay_common/veripay_common/security.py:70-102 | every issued token has a second spelling the signer accepts just as well |
| VerificationToken.StandardTokenAccepted | libs/veripay_common/veripay_common/security.py:70-102 | an issued token with its body in the standard alphabet is accepted just as well |
| Envelope.Encryptor.StreamBytes | libs/veripay_common/veripay_common/security.py:135-147 | the loop terminates and produces the stream of the requested length |
| Envelope.Encryptor.StreamPrefix | libs/veripay_common/veripay_common/security.py:135-147 | a shorter stream is a prefix of a longer one |
| Octets.XorTwice | libs/veripay_common/veripay_common/security.py:152 | exclusive or with the same byte twice gives the byte back |
| Envelope.Encryptor.Encrypt | libs/veripay_common/veripay_common/security.py:149-159 | the sealed envelope for the drawn nonce, or the refusal of an empty field |
| Envelope.Encryptor.Decrypt | libs/veripay_common/veripay_common/security.py:161-170 | each refusal in its order, and otherwise the decrypted bytes |
| Envelope.Encryptor.OpenAfterSeal | libs/veripay_common/veripay_common/security.py:149-170 | for every nonce, decrypting what was encrypted gives the payload back; encrypting fails exactly on an empty payload, nonce or key id |
| Envelope.Encryptor.OpenExactly | libs/veripay_common/veripay_common/security.py:161-170 | exactly the envelopes that open to a payload: those whose texts, however written, decode to a nonce, the payload's ciphertext under it and their digest |
| Envelope.Encryptor.SealAfterOpen | libs/veripay_common/veripay_common/security.py:149-170 | re-encrypting under the same nonce gives the envelope back exactly when its coded fields are canonical and no field is empty |
| Base64Url.Fill | libs/veripay_common/veripay_common/security.py:31 | the padding restored makes whole groups of four, and is more than two only for a lone character |
| NumberCheck.LongestMatch | services/analyst_api/veripay_analyst_api/reasoning.py:22 | the scanner takes the longest number a position starts with, and none only when none starts there |
| NumberCheck.TokensAndGaps | services/analyst_api/veripay_analyst_api/reasoning.py:64-66 | tokens and digit-free gaps alternate to give the text back, so tokens are in order, disjoint, and cover every digit |
| NumberCheck.SeparatesExactly | services/analyst_api/veripay_analyst_api/reasoning.py:22 | exactly the characters that are no digit, point or minus keep the numbers of two texts apart |
| NumberCheck.NumbersAround | services/analyst_api/veripay_analyst_api/reasoning.py:64-66 | around such a character the scans concatenate |
| NumberCheck.AllowedNumberStrings | services/analyst_api/veripay_analyst_api/reasoning.py:69-78 | the loops collect exactly the numbers the non-boolean values print |
| NumberCheck.MatchesAllowed | services/analyst_api/veripay_analyst_api/reasoning.py:113-127 | the loop accepts exactly the tokens that occur in the payload or lie within five per cent of a payload number |
| NumberCheck.FindUnsupported | services/analyst_api/veripay_analyst_api/reasoning.py:98-109 | exactly the checked tokens without support are collected |
| NumberCheck.CrosscheckNumbers | services/analyst_api/veripay_analyst_api/reasoning.py:81-110 | the check is made exactly when the payload has numbers, and flags exactly the texts with an unsupported number |
| NumberCheck.FlaggedByParts | services/analyst_api/veripay_analyst_api/reasoning.py:81-110 | a text is flagged exactly when one of its space-separated parts is |
| NumberCheck.QuotesNeverFlagged | services/analyst_api/veripay_analyst_api/reasoning.py:81-110 | a text joined from printed payload values is never flagged |
| NumberCheck.MoreEntriesNeverFlag | services/analyst_api/veripay_analyst_api/reasoning.py:81-110 | adding entries to a payload that has a number never creates a flag |
| NumberCheck.HeightenedAlertFlagged | services/analyst_api/veripay_analyst_api/adjustments.py:105-112 | the sentence of a heightened alert gets its own report flagged exactly when no payload number is near 0.10 |
| Redaction.Walk | libs/veripay_common/veripay_common/privacy.py:48-64 | the recursion that fills a result and appends to the shared list returns the sanitized value and appends exactly the reported paths |
| Redaction.WalkEntries | libs/veripay_common/veripay_common/privacy.py:49-59 | the loop over a mapping assigns the sanitized entries in order |
| Redaction.Redact | libs/veripay_common/veripay_common/privacy.py:66-69 | both results for a whole payload |
| Redaction.EntriesKeptIffDistinct | libs/veripay_common/veripay_common/privacy.py:49-59 | a mapping keeps its number of entries exactly when its keys are distinct as they print |
| Redaction.ShapeKept | libs/veripay_common/veripay_common/privacy.py:48-64 | with distinct keys, kinds and keys are kept and children sanitized in place |
| Redaction.VisibleKept | libs/veripay_common/veripay_common/privacy.py:48-64 | every leaf with no sensitive key above it is kept |
| Redaction.SensitiveReplaced | libs/veripay_common/veripay_common/privacy.py:54-56 | each outermost sensitive value is replaced by its token |
| Redaction.NothingElse | libs/veripay_common/veripay_common/privacy.py:48-64 | nothing else occurs in the result |
| Redaction.RevealsOnlyTokens | libs/veripay_common/veripay_common/privacy.py:44-64 | two payloads sanitize alike exactly when they differ only in sensitive values with equal tokens |
| Redaction.SamePathsAgain | libs/veripay_common/veripay_common/privacy.py:48-69 | redacting again reports the same paths |
| Redaction.RedactedTwice | libs/veripay_common/veripay_common/privacy.py:44-64 | redacting twice changes nothing but tokens into tokens of tokens |
| Redaction.PositionsOrdered | libs/veripay_common/veripay_common/privacy.py:51-64 | the outermost sensitive positions come in document order |
| Redaction.ReportedExactly | libs/veripay_common/veripay_common/privacy.py:51-64 | the reported paths are those of exactly the outermost sensitive entries, each once, in document order |
| Redaction.PathsCanCoincide | libs/veripay_common/veripay_common/privacy.py:52-53 | a counterexample: a dot in a key makes two positions print one path |
| Redaction.TellsApartExactly | libs/veripay_common/veripay_common/privacy.py:51-62 | over keys of an alphabet, distinct and not empty, the paths tell all positions of every payload apart exactly when the alphabet lacks the dot and lacks an opening bracket, a closing bracket or every digit |
| Redaction.EmptyKeyCollides | libs/veripay_common/veripay_common/privacy.py:52-53 | an empty key makes a nested and an outer position print one path, whatever the other key |
| Rounding.Round | services/risk_fusion/veripay_risk_fusion/service.py:45 | rounding to the nearest integer, ties to the even one |
| RiskFusion.UnifiedBetween | services/risk_fusion/veripay_risk_fusion/service.py:37-45 | the fused score lies between the rounded bounds of the available scores |
| RiskFusion.UnifiedHasTier | services/risk_fusion/veripay_risk_fusion/service.py:37-46 | the fused score is always within 0 to 100, so classifying it never raises |
| RiskFusion.FusionMonotone | services/risk_fusion/veripay_risk_fusion/service.py:37-53 | raising available scores never lowers score, tier or band, and unavailable components do not matter |
| RiskFusion.UnavailableIgnored | services/risk_fusion/veripay_risk_fusion/service.py:38-45 | unavailable components might as well be absent, and the score is 100 with none available |
| RiskFusion.CommonScaleIgnored | services/risk_fusion/veripay_risk_fusion/service.py:42-45 | a common factor on all weights changes nothing |
| RiskFusion.LosingAComponent | services/risk_fusion/veripay_risk_fusion/service.py:37-45 | redistribution: losing a component below the mean never lowers the mean, above it never raises it |
| RiskPolicy.TableAgreesExactly | libs/veripay_common/veripay_common/risk_policy.py:25-96 | where the policy table has a range for a score it is that of the tier the score is classified to, and between two ranges, so for fractions, the table has none |
| DecisionEngine.CostIsLine | services/decision_engine/veripay_decision_engine/service.py:109-121 | every action's cost is a line in the fraud probability with the named slope |
| DecisionEngine.DecisionRequest.constructor | services/decision_engine/veripay_decision_engine/service.py:73-81 | the request fills in tier and path as its validator does |
| DecisionEngine.DecisionRequest.Decide | services/decision_engine/veripay_decision_engine/service.py:174-310 | the whole decision, and that deciding writes only the processing path |
| DecisionEngine.Select | services/decision_engine/veripay_decision_engine/service.py:260-284 | the cheapest candidate, replaced by the challenge in matrix mode |
| DecisionEngine.DecidedCostIsLeast | services/decision_engine/veripay_decision_engine/service.py:264-284 | without a hard control the decided cost is the least exactly when the override did not replace a strictly cheaper allowance, and never more than a challenge above the least |
| DecisionEngine.DecisionsFlatten | services/decision_engine/veripay_decision_engine/service.py:109-121 | as the score rises, with everything else fixed, the chosen cost's slope never rises: the decisions follow the lower envelope, override included |
| DecisionEngine.LaterIsFlatter | services/decision_engine/veripay_decision_engine/service.py:109-121 | of two actions, the one cheaper at the higher probability is no steeper |
| DecisionEngine.CostsNotNegative | services/decision_engine/veripay_decision_engine/service.py:84-86 | expected costs meet the response model's bound |
| DecisionEngine.AllowedOnlyWhenClear | services/decision_engine/veripay_decision_engine/service.py:191-258 | allowing is past every hard control, and in matrix mode above tier NO_RISK exactly an approval by the customer |
| DecisionEngine.CandidatesPermitted | services/decision_engine/veripay_decision_engine/service.py:124-134 | candidates respect the tier's permitted actions exactly in matrix mode or at tier HIGH |
| DecisionEngine.FusedBandBypassesMatrix | services/decision_engine/veripay_decision_engine/service.py:179-181 | band and tier of one fused score leave the matrix to tier NO_RISK |
| DecisionEngine.MandatoryChallengeIgnored | services/decision_engine/veripay_decision_engine/service.py:68 | the mandatory challenge field changes no decision |
| VerificationService.SessionObject.constructor | services/auth_orchestration/veripay_auth_orchestration/service.py:63-80 | a session object starts as the given session |
| VerificationService.SessionObject.Close | services/auth_orchestration/veripay_auth_orchestration/service.py:278-285 | the in-place closing of a session without approval |
| VerificationService.SessionObject.Conclude | services/auth_orchestration/veripay_auth_orchestration/service.py:314-333 | the in-place conclusion of a session that passed its checks |
| VerificationService.IssueSession | services/auth_orchestration/veripay_auth_orchestration/service.py:160-200 | a created session with the expiry read back from its own token |
| VerificationService.Finish | services/auth_orchestration/veripay_auth_orchestration/service.py:278-333 | timeout, failed check, denial and approval change outcome, lock and escalation in place as the transition says, and the reason tells which of the four it was |
| VerificationService.Service.Save | services/auth_orchestration/veripay_auth_orchestration/service.py:135-137 | saving replaces one session and no other |
| VerificationService.Service.CreateSession | services/auth_orchestration/veripay_auth_orchestration/service.py:160-204 | creating is the transition, failed calls included |
| VerificationService.Service.CompleteSession | services/auth_orchestration/veripay_auth_orchestration/service.py:253-345 | completing is the transition, with the closed session, a reason that tells how it ended and the completion time, or the error |
| VerificationSessions.RunKeepsInvariant | services/auth_orchestration/veripay_auth_orchestration/service.py:160-345 | over every run with fresh ids: locks are exactly unapproved closed MODERATE sessions, escalations exactly unapproved closed HIGH ones, and each session of a tier with risk was pushed once |
| VerificationSessions.CompletedOnce | services/auth_orchestration/veripay_auth_orchestration/service.py:253-345 | over every run, each session leaves PENDING at most once and is immutable from then on |
| VerificationSessions.ClosedByPolicy | services/auth_orchestration/veripay_auth_orchestration/service.py:278-333 | every close without approval locks and escalates as the tier's row of the policy table says, and escalates the outcome exactly where that table falls back to review |
| VerificationSessions.ApprovalMeansCheckedExactly | services/auth_orchestration/veripay_auth_orchestration/service.py:216-224 | approval implies the tier's checks exactly when the requested outcome is APPROVED or DENIED or the tier asks for nothing: other requested outcomes skip them |
| VerificationSessions.ApprovedSessionsChecked | services/auth_orchestration/veripay_auth_orchestration/service.py:216-345 | over runs that ask only for approval or denial, every approved session passed the checks of its tier |
| VerificationSessions.CreatedSessionUsable | services/auth_orchestration/veripay_auth_orchestration/service.py:160-204 | a new session's own token binds to it exactly until it expires |
| VerificationSessions.OnlyIssuedTokenBinds | services/auth_orchestration/veripay_auth_orchestration/service.py:266-293 | as far as the digest tells tokens apart, a session takes exactly the token it was created with, character for character, until it expires |
| VerificationSessions.SpellingBindsExactly | services/auth_orchestration/veripay_auth_orchestration/service.py:266-293 | whatever the digest: for every spelling of a session's token the signer gives the same answer, and the session takes it exactly when its digest is that of the issued one and it has not expired |
| VerificationSessions.RespelledTokenRefused | services/auth_orchestration/veripay_auth_orchestration/service.py:266-293 | so the second spelling every token has completes nothing, unless the digest collides |
| VerificationSessions.LateCompletionFails | services/auth_orchestration/veripay_auth_orchestration/service.py:253-293 | a completion fails exactly once the token has expired at the first clock reading, so the timeout branch needs the expiry between the two readings |
| ModelRegistry.Monitor.RegisterVersion | services/model_monitor/veripay_model_monitor/service.py:308-319 | the entry is stored under its version and becomes the latest; nothing else changes |
| ModelRegistry.Monitor.PromoteIfBetter | services/model_monitor/veripay_model_monitor/service.py:322-390 | the nested comparison is the gate; a rejection leaves everything unchanged, without any description file the files are copied and the registry kept, and otherwise the entry is registered |
| ModelRegistry.Monitor.RetrainAndPromote | services/model_monitor/veripay_model_monitor/service.py:508-555 | the whole call is one transition of registry and directories: under-labelled, failed and rejected retrains change nothing, and exactly the promoting ones register |
| ModelRegistry.CollectLabeled | services/model_monitor/veripay_model_monitor/service.py:438-450 | the loop computes the labelled pairs in order |
| ModelRegistry.LabeledExactly | services/model_monitor/veripay_model_monitor/service.py:425-450 | exactly the observations with a deciding label, the feedback label first |
| ModelRegistry.RunKeepsLinks | services/model_monitor/veripay_model_monitor/service.py:224-231 | over every run, latest names a stored version, other models are untouched, and a run without promotions changes nothing |
| ModelRegistry.ErosionBound | services/model_monitor/veripay_model_monitor/service.py:342-349 | over any run whose retrains all carry roc_auc, k promotions lower the champion's roc_auc by at most k tolerances |
| ModelRegistry.LossesMultiply | services/model_monitor/veripay_model_monitor/service.py:342-349 | those k tolerances are k times the tolerance |
| ModelRegistry.ErosionReached | services/model_monitor/veripay_model_monitor/service.py:342-349 | that bound is reached, from every registry and for every k, by k retrains all of which are promoted; with values between 0 and 1 while k tolerances fit under the champion's |
| ModelRegistry.NeverErodesExactly | services/model_monitor/veripay_model_monitor/service.py:3-9 | the promise that a worse retrain never replaces a good model, over all runs: a metric of the champion is never lost or lowered exactly when it is roc_auc, every retrain reports roc_auc, and the tolerance is at most zero |
| ModelRegistry.MissingMetricOpensGate | services/model_monitor/veripay_model_monitor/service.py:340-355 | one promoted retrain without metrics lets the next one in with any metrics at all |
| ModelRegistry.PromotedOwnsExactly | services/model_monitor/veripay_model_monitor/service.py:361-383 | a registered version refers to artefacts of its own exactly when the retrain left each file or an earlier retrain of that version did |
| ModelRegistry.RunOwns | services/model_monitor/veripay_model_monitor/service.py:361-383 | over every run of retrains that each leave all their files, the latest version keeps artefacts of its own |
| ModelRegistry.BorrowedArtefacts | services/model_monitor/veripay_model_monitor/service.py:361-383 | any retrain without files that passes the gate is registered over the artefacts of the version before it |
| ModelRegistry.ObservationWindow.Add | services/model_monitor/veripay_model_monitor/service.py:116-120 | the window is the end of what was in it and the new observation |
| ModelRegistry.ObservationWindow.AddAll | services/model_monitor/veripay_model_monitor/service.py:110-120 | after any number of additions the window is the last maxlen of all that was added |
| Drift.PsiSeparates | services/model_monitor/veripay_model_monitor/service.py:129-137 | the index is not negative, infinite exactly for an empty histogram, and zero exactly for equal normalised histograms |
| Drift.PsiSymmetric | services/model_monitor/veripay_model_monitor/service.py:129-137 | the index is symmetric |
| Drift.PsiScaleFree | services/model_monitor/veripay_model_monitor/service.py:129-137 | scaling either histogram leaves the index unchanged |
| Drift.FeatureDrift | services/model_monitor/veripay_model_monitor/service.py:149-169 | the loop computes the index of exactly the profiled columns, and the missing rate |
| Drift.MissingRateBounds | services/model_monitor/veripay_model_monitor/service.py:161-168 | the missing rate is between 0 and 1, and 0 exactly when no profiled column is missing in any observation |
| Drift.MaxPsi | services/model_monitor/veripay_model_monitor/service.py:191 | the largest of the indexes, zero without any |
| Drift.DriftReport | services/model_monitor/veripay_model_monitor/service.py:172-201 | too small a window is reported exactly below the minimum, drift exactly when some profiled column meets the threshold, or nothing is profiled and the threshold is not positive |
| Drift.SameShapesHaveNotDrifted | services/model_monitor/veripay_model_monitor/service.py:129-201 | with a positive threshold, a window shaped like the reference in every profiled column is not drift |
| Sorting.SortedOrders | services/analyst_api/veripay_analyst_api/profiles.py:96-97 | the history is in time order and has the stored transactions, each as often |
| Sorting.FilterSorted | services/analyst_api/veripay_analyst_api/profiles.py:96-97 | leaving transactions out before or after sorting is the same |
| Sorting.EqualKeysKeepOrder | services/analyst_api/veripay_analyst_api/profiles.py:96-97 | transactions at one time keep the order they were added in |
| Profiles.ProfileStore.AddTransaction | services/analyst_api/veripay_analyst_api/profiles.py:92-94 | one row is added to its customer and the id is filed; nothing else changes |
| Profiles.ProfileStore.RecordFeedback | services/analyst_api/veripay_analyst_api/profiles.py:140-141 | one verdict is appended; nothing else changes |
| Profiles.ProfileStore.DetectDrift | services/analyst_api/veripay_analyst_api/profiles.py:162-213 | drift of the customer's history |
| Profiles.FindDrift | services/analyst_api/veripay_analyst_api/profiles.py:162-213 | the early-return loop finds the first jump between neighbours, and otherwise the gradual drift |
| Profiles.DriftExactly | services/analyst_api/veripay_analyst_api/profiles.py:162-213 | sudden drift is exactly some jump between recent neighbours, and hides gradual drift |
| Profiles.Within90Exactly | services/analyst_api/veripay_analyst_api/profiles.py:168 | the window of ninety whole days reaches back just short of ninety-one and has no end |
| Profiles.RecentInLongTerm | services/analyst_api/veripay_analyst_api/profiles.py:99-106 | recent behaviour is part of the baseline it is compared with |
| Profiles.MedianBetween | services/analyst_api/veripay_analyst_api/profiles.py:123-124 | the median lies between the smallest and the largest amount |
| Profiles.BoostedExactly | services/analyst_api/veripay_analyst_api/profiles.py:148-222 | a verdict boosts trust exactly when it and the window before it are benign and fraud was never confirmed |
| Features.CentroidLocation | services/analyst_api/veripay_analyst_api/features.py:99-110 | the loop computes the centroid the comprehension of the other engine does |
| Features.BuildFeatures | services/analyst_api/veripay_analyst_api/features.py:34-64 | the basic vector, or the error of comparing a time without zone to stored ones |
| Features.OneCausalVector | services/analyst_api/veripay_analyst_api/features16.py:52-155 | for every baseline both engines give one vector; it and thirteen of the sixteen features depend on the stored rows only through those strictly before the transaction |
| Features.LaterRowIgnored | services/analyst_api/veripay_analyst_api/features.py:34-64 | a row at or after the transaction, stored anywhere, changes neither the vector nor, for a fixed baseline, the sixteen features |
| Features.WindowsNest | services/analyst_api/veripay_analyst_api/features16.py:105-108 | velocity_5m is at most txn_count_1h, that at most txn_count_24h, and amt_sum_1h at most amt_sum_24h without negative amounts |
| Features.MerchantNovelty | services/analyst_api/veripay_analyst_api/features16.py:79-86 | days since first seen reach back to the customer's earliest transaction at the merchant |
| Features.NewMerchantExactly | services/analyst_api/veripay_analyst_api/features16.py:76-86 | a merchant is new exactly when no earlier transaction was there, and then has no days |
| Features.FeatureRanges | services/analyst_api/veripay_analyst_api/features16.py:52-121 | z-score, implied velocity and hour deviation stay within their caps |
| Features.PreviousIsLatest | services/analyst_api/veripay_analyst_api/features16.py:91-99 | the previous transaction is the latest earlier one and strictly in the past |
| Features.BaselineCausalExactly | services/analyst_api/veripay_analyst_api/service.py:95-98 | the baseline is taken over earlier rows only exactly when no later one is stored |
| Features.LaterRowReachesBaseline | services/analyst_api/veripay_analyst_api/features16.py:69-75 | a counterexample: a later transaction changes amt_over_median_90d through the baseline |
| BaselineCausality.RatioCausalExactly | services/analyst_api/veripay_analyst_api/features16.py:69-75 | for every history: whatever the amounts were, amt_over_median_90d is the one over the earlier rows alone, if and only if nothing is stored at or after the transaction |
| BaselineCausality.VectorCausalExactly | services/analyst_api/veripay_analyst_api/features16.py:52-121 | and so all sixteen features are causal, whatever the amounts were, under just the same condition |
| HourCausality.DeviationCausalExactly | services/analyst_api/veripay_analyst_api/features16.py:99-121 | for every history: whatever the hours were at these instants, the deviation from the usual hour is the one over the earlier rows alone, if and only if nothing is stored at or after the transaction, or one row there and one before it in the baseline |
| Adjustments.BoostIsRecentBenign | services/analyst_api/veripay_analyst_api/adjustments.py:90-126 | the boost and the profile's trust status, computed apart, agree for every window, also zero and negative ones |
| Adjustments.CombinedFactor | services/analyst_api/veripay_analyst_api/adjustments.py:129-171 | what the two chained adjustments come to in each case; gradual drift never counts without the boost |
| Adjustments.FraudOnlyRises | services/analyst_api/veripay_analyst_api/service.py:144 | the adjusted fraud probability only rises, and only after confirmed fraud |
| Adjustments.AnomalyRisesOnlySuddenly | services/analyst_api/veripay_analyst_api/service.py:145 | only sudden drift raises the anomaly score |
| Adjustments.ComponentsFit | services/analyst_api/veripay_analyst_api/service.py:177-196 | the components are in the fusion service's bounds exactly when the network score, the one not clamped, does not round below zero and its weight is in bounds |
| Analyst.ModelInputCausal | services/analyst_api/veripay_analyst_api/service.py:100-118 | both feature modes send the models the same features or fail alike, and only rows before the transaction reach them |
| AnalystOrchestrator.Orchestrator.constructor | services/analyst_api/veripay_analyst_api/service.py:68-85 | a new orchestrator is empty |
| AnalystOrchestrator.Orchestrator.FindAxes | services/analyst_api/veripay_analyst_api/service.py:96-175 | the model calls on the request's features, both adjustments and the graph axis, whose failure is not fatal |
| AnalystOrchestrator.Orchestrator.EvaluateTransaction | services/analyst_api/veripay_analyst_api/service.py:96-274 | the whole chain of calls is the evaluation of the store and the request |
| AnalystOrchestrator.Orchestrator.File | services/analyst_api/veripay_analyst_api/service.py:229-294 | the row is stored first; the rest only after the response is accepted |
| AnalystOrchestrator.Orchestrator.Score | services/analyst_api/veripay_analyst_api/service.py:88-295 | scoring is the transition, rescoring, failures and rejections included |
| AnalystOrchestrator.Orchestrator.Explain | services/analyst_api/veripay_analyst_api/service.py:298-379 | explaining is the transition on top of scoring |
| AnalystOrchestrator.Orchestrator.SubmitFeedback | services/analyst_api/veripay_analyst_api/service.py:459-469 | feedback appends one verdict and changes nothing else |
| AnalystOrchestrator.Orchestrator.Alerts | services/analyst_api/veripay_analyst_api/service.py:589-595 | exactly the stored alerts, each as often, most suspicious first, equal ones in the order raised |
| AnalystOrchestrator.Orchestrator.FindScore | services/analyst_api/veripay_analyst_api/service.py:597-603 | in every state the invariant holds in: by id exactly the scored ids are found; by customer exactly those with a score, and then their latest |
| AnalystOrchestrator.Orchestrator.FindExplanation | services/analyst_api/veripay_analyst_api/service.py:605-611 | in every state the invariant holds in: the stored explanation of the score found, exactly if that was explained, and it holds that score |
| AnalystRuns.RunKeepsInvariant | services/analyst_api/veripay_analyst_api/service.py:88-379 | from the empty state with answers in range, every run keeps one history row per scored id, one alert per response that does not pass and no others, each customer lookup at the customer's latest score, and each explanation with the stored score |
| AnalystRuns.RunExtends | services/analyst_api/veripay_analyst_api/service.py:93-95 | over any run at all, scores never change, and alerts, rows and verdicts are only added |
| AnalystRuns.RescoringIsNoOp | services/analyst_api/veripay_analyst_api/service.py:93-95 | scoring an id again answers the same and changes nothing |
| AnalystServices.FailuresExactly | services/analyst_api/veripay_analyst_api/service.py:88-274 | exactly which new requests raise, and how: times that cannot be compared, a failing model, fusion or decision call, or answers out of bounds, that is a fused score outside 0 to 100 or a raw score that does not round into the unit interval; only the last changes any state, and a failing graph call fails nothing |
| AnalystServices.SecondZonelessRaises | services/analyst_api/veripay_analyst_api/features.py:47 | after one score of a customer its further requests without a time zone all raise, whatever the services answer |
| AnalystRuns.OrphanExactly | services/analyst_api/veripay_analyst_api/service.py:230-271 | the rows keep matching the scores exactly unless a new transaction's response is rejected |
| AnalystRuns.RunOrphanExactly | services/analyst_api/veripay_analyst_api/service.py:230-271 | over every run from the empty state the rows match the scores in the end if and only if no response to a new transaction was rejected on the way |
| AnalystRuns.StrayStays | services/analyst_api/veripay_analyst_api/service.py:93-271 | a row without a score of its customer, or with a second row of its id, stays so through every later score, whoever retries |
| AnalystRuns.RetryAddsRow | services/analyst_api/veripay_analyst_api/service.py:230-271 | trying again after a rejection gives the transaction a second history row |
| AnalystRuns.ExplainedCustomerExactly | services/analyst_api/veripay_analyst_api/service.py:370-378 | an explanation names the scored customer exactly when the id was new or already that customer's |
| AnalystRuns.BackgroundExcludes | services/analyst_api/veripay_analyst_api/service.py:302-315 | the investigation sees at most twenty of the customer's transactions and never the explained one |
| AnalystRuns.LookupById | services/analyst_api/veripay_analyst_api/service.py:597-603 | exactly the scored ids are found |
| AnalystRuns.LookupByCustomer | services/analyst_api/veripay_analyst_api/service.py:597-603 | a customer is found exactly with a score of its own, and then the latest |
| AnalystRuns.QueueOrdered | services/analyst_api/veripay_analyst_api/service.py:589-595 | sorting by falling suspicion keeps every alert, and equal ones in the order raised |
| AnalystServices.AcceptedExactly | services/analyst_api/veripay_analyst_api/models.py:98-124 | a response is accepted exactly when the fused score is in range and the raw scores round into the unit interval; the adjusted ones always do |
| AnalystServices.ResponseExplained | services/analyst_api/veripay_analyst_api/service.py:144-225 | in a response, fraud is raised only after confirmed fraud, the anomaly only by sudden drift; it passes exactly when the action was to allow, and blocks exactly when that was to decline or reverse outside the stealth quadrant |
| AnalystServices.OutOfRangeOrphan | services/analyst_api/veripay_analyst_api/service.py:230-271 | a counterexample: a model answering 2.0 leaves a history row without a score |
| AnalystServices.InHouseAccepted | services/analyst_api/veripay_analyst_api/service.py:197-211 | over the repository's own fusion and decision services, with models and graph answering probabilities, no response is rejected |
| AnalystServices.InHouseRunsKeepInvariant | services/analyst_api/veripay_analyst_api/service.py:88-379 | so no run over them breaks the invariant, whatever fails in between |
| AnalystServices.GraphWeightRedistributed | services/analyst_api/veripay_analyst_api/service.py:146-168 | without the graph, fusion is over the two model scores alone |
| FeedbackStatistics.Buckets | services/analyst_api/veripay_analyst_api/service.py:527-529 | the loop files every verdict under its decision, in order |
| FeedbackStatistics.StatsOf | services/analyst_api/veripay_analyst_api/service.py:510-559 | all totals, the rate, and the four rows |
| FeedbackStatistics.RowsAddUp | services/analyst_api/veripay_analyst_api/service.py:526-549 | the rows' totals, confirmed frauds and false alarms add up to the whole |
| FeedbackStatistics.NamedBenignExactly | services/analyst_api/veripay_analyst_api/service.py:514-524 | the two named kinds are all benign verdicts exactly when none is plainly "legitimate" |
| FeedbackStatistics.RatesInRange | services/analyst_api/veripay_analyst_api/service.py:546-551 | every rate is between 0 and 1, and no verdict counts as both confirmed and benign |

## Left out

- Floating-point rounding, overflow to infinity and the order of floating-point sums: amounts and scores are reals, and `round` is exact rounding half to even.
- Base64Url.Decode: gives none where the library raises, without telling its error messages apart.
- Envelope.Encryptor.Encrypt: payloads of at most the 32 times 2^32 bytes the four-byte counter covers, beyond which printing the counter raises; the nonce is a parameter.
- Envelope.Encryptor.Decrypt: the same limit on the ciphertext; a field that does not decode is one error here.
- VerificationToken.IssuedTokenLifetime: assumes that the JSON text of claims parses back to them; naive datetimes are read as UTC when issuing, and comparing a naive expiry is an error.
- VerificationSessions.OnlyIssuedTokenBinds: asks that the digest tells the given token from the issued one; what a colliding spelling does is in `VerificationSessions.SpellingBindsExactly`.
- GraphStore.Store.Features: asks for a non-empty store when a window is given, since on an empty one the cutoff would be before the earliest representable time; a transaction's location is never read and is not modelled.
- Drift.DriftReport: takes the histogram routine as a parameter whose result has as many bins as the profile's counts, and counts as natural numbers; profiles of other shapes, which numpy broadcasts or refuses, are not covered.
- ModelRegistry.Monitor.PromoteIfBetter: artefacts are known by the version that left them, not by content; fingerprints, timestamps and the write to the registry file are left out, and the registry is a map.
- AnalystOrchestrator.Orchestrator.Score: the display parts of a response (feature tables, contributor rankings, recent transactions, adjustment texts, the verification text and the graph pictures) are not part of it.
- AnalystOrchestrator.Orchestrator.Explain: the wording of the report and the crosscheck over that wording are left out; the check itself is `NumberCheck`.
- AnalystOrchestrator.Orchestrator.SubmitFeedback: forwarding the verdict to other services, which never fails the call, is left out.
- BaselineCausality.VectorCausalExactly: has no counterpart for the z-score alone, whose standard deviation is a parameter here.
- HourCausality.DeviationCausalExactly: takes hours and instants as independent, as rows from different time zones have them.
- VerificationService.Service.CompleteSession: the two clock readings are parameters.
- DecisionEngine.DecisionRequest.Decide: the random explanation job id is only whether there is one; the decision time is left out.
- Expiring a session: the call would need the session's token, which is not kept, so it always raises and changes nothing.
- Ego and community pictures, their caps, the community's pattern label and the findings' wording: they select and word what the graph features already count.
- Quantiles, typical hours and distinct merchants of a baseline, which only reach displays; the standard deviation is a parameter.
- Writing datasets, mapping observations back to rows, HTTP clients and entry points, configuration files, the web and phone applications, synthetic data and model training.
- The dispute, token-vault, device-integrity, feedback-loop, audit, merchant-policy, compliance and rule services: separate processes, none of whose state is read on the way from a transaction to its score, decision, verification session or retraining as modelled here.
