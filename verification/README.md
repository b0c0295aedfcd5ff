# Messaging and ingestion engine: a verified model

This project models the state machines behind the messaging and ingestion engine and proves what
they keep over whole runs. Each database block of the source is one atomic transaction; each
component has pure functions that say what a transaction does, lemmas about every run of those
functions, and a class or loop that does the same work in place and is proved equal to them.

| files | component |
|---|---|
| `SmsSequence`, `SmsSequenceRuns`, `SmsQuotas`, `SmsCadence`, `SmsWire`, `SmsDues`, `SmsEffects`, `SmsEngine` | the eight-step SMS follow-up engine and inbound replies |
| `ApifyIngestion`, `ApifyImports`, `ApifyListings`, `ApifyLeads`, `ApifyRuns`, `ApifyImporter` | dataset import with insert-or-replay per item, alone and beside the engine |
| `CampaignControl` | commands on campaigns and workflows |
| `CampaignRunner`, `CampaignRuns`, `CampaignTotals`, `CampaignOutcomes`, `CampaignStatuses`, `CampaignRequeue`, `SmsCampaign`, `SmsWindow` | direct SMS batches, their requeueing and the daily window |
| `LbcMessaging`, `LbcRuns`, `LbcTotals`, `LbcOutcomes`, `LbcFailures`, `LbcSender` | Leboncoin batches over accounts |
| `PayloadFlattening`, `PayloadOrder`, `SchemaContacts`, `PhoneChoice`, `PhoneRanks`, `PhoneOrder` | payload flattening, phone selection and what their order decides |
| `ProfileGate`, `ProfileReasons`, `ProfileGround`, `ProfileRegistry`, `ProfileCommands`, `ProfileStore` | the profile regression gate, duplicate marking and the active-profile machine |
| `ResourceLock`, `SectorCollection` | timed leases and the collectors that use them |

What the model takes as input, at every step and without restriction: provider replies, rendering
and database failures, blacklist answers, random gaps, clocks, the order in which queries return
rows, phone extraction, hashes, and what other processes do between two transactions. A row's id is
its position in its table. Instants are microseconds.

## What the code does not do

Some expected properties fail. The code is modelled as it is; each failure has a concrete instance,
an exact condition on the inputs, or both.

- An engine tick is one transaction: when a visit raises, the log rows of messages already accepted
  are rolled back and the next tick sends them again (`TickLogsAcceptedIff`, `AbortedTickResends`).
- Two enabled variants of the next step, or an unreadable send time, leave the due date where it
  was, so several messages leave at once (`DueMovesIffSchedulable`, `TwoVariantsBurst`).
- A later ordinary reply overwrites DO_NOT_CONTACT (`RefusalLastsIff`, `StopWordIsOverwritten`);
  silence does not depend on it.
- An item first imported while its campaign is not running stays ignored for ever (`FirstImportDecides`).
- A template that does not render a listing loses the counters of its batch (`BatchKeepsCountsIff`,
  `UntitledListingLosesCount`).
- Leboncoin totals are lost when quotas run out or a text does not render mid-batch
  (`BatchKeepsTotalsIff`, `QuotaLosesTotal`). A failed message blocks its listing for its campaign
  until another campaign reaches the listing (`FailureLastsIff`, `OtherCampaignFrees`). A pause taken
  back during a batch drops the rest of it, which is then reported COMPLETED (`CompletedEarlyIff`,
  `ResumeCompletesEarly`).
- The phone of a payload depends on the order of its fields when paths collide
  (`OrderIndependentIff`, `CollisionFlipsPhone`), and the evidence when several candidates share the
  best score (`EvidenceFixedIff`).
- Rollback accepts a candidate nobody approved (`ApprovalKeptIff`, `RollbackActivatesCandidate`).
- Leases protect assignment rows, so an account assigned to two sectors can have two users
  (`OneUserEachIff`), and nothing renews a lease during a long scrape (`TakenOverIff`).
- The page checkpoint counts pages where the scrapers expect a last page, so from the second
  completed run on pages are skipped, and after page 100 nothing is visited any more (`NoGapIff`,
  `BlindAfterHundred`).

## Model

| member | source | states |
|---|---|---|
| `SmsSequenceRuns.RunKeepsInv` | app/services/sms_sequence.py:226-414 | In every reachable state, under any interleaving of sequence creations, engine ticks, replies and stops: the logged steps of each sequence are exactly 0..current_step, once each and in order; the step stays in -1..7; an active sequence is at most at step 6 and has a due date; completed holds exactly at step 7; phones and (contact, campaign) pairs are unique |
| `SmsSequenceRuns.NextStepIsNew` | app/services/sms_sequence.py:264-276 | In a consistent state the step about to be sent is not logged and not beyond the last, so the replay branch and the overflow branch are never taken |
| `SmsSequenceRuns.HasKeyIsLogged` | app/services/sms_sequence.py:336-337 | The idempotency key of a step is in the log if and only if that step is among the logged steps of its sequence |
| `SmsSequenceRuns.CountersMatchRows` | app/services/sms_sequence.py:252-414 | A batch of visits that does not raise counts each visit as processed and as stopped exactly the sequences it cancelled |
| `SmsSequenceRuns.FirstEligibleIff` | app/services/sms_sequence.py:318-335 | The SIM chosen is the first eligible one in the provider's order; none is chosen exactly when none is eligible |
| `SmsEffects.EligibleIff` | app/services/sms_sequence.py:318-334 | A SIM is eligible if and only if it is active, under the campaign's quota since midnight UTC and, when the sector lists SIMs, listed and under its own limit |
| `SmsEffects.CancelsIff` | app/services/sms_sequence.py:262-271 | A visit cancels and counts as stopped if and only if the contact or campaign is gone, the contact is not active or its phone is blacklisted; it then changes nothing else |
| `SmsEffects.HandsOverIff` | app/services/sms_sequence.py:318-385 | A visit hands over a message if and only if contact and campaign are open and some SIM is eligible: the next step, to the contact's phone, from the first eligible SIM; exactly an accepted one is logged |
| `SmsEffects.TickRunsIff` | app/services/sms_sequence.py:230-237 | A tick with something due visits it if and only if it is made from 8:00 to before 20:00 |
| `SmsEffects.EnsureRefusesIff` | app/services/sms_sequence.py:137-163 | A request is refused, without any change, for the first of: no phone, blacklisted, campaign not running, contact known and not active |
| `SmsEffects.EnsureSchedules` | app/services/sms_sequence.py:148-189 | What a scheduled request creates, and what it keeps and merges when contact or sequence are known |
| `SmsSequenceRuns.VisitsKeepInv` | app/services/sms_sequence.py:253-413 | A batch of visits keeps the invariant, extends the log, leaves contacts alone and changes no row that was not visited |
| `SmsSequenceRuns.StepKeepsInv` | app/services/sms_sequence.py:128-189 | Every kind of event keeps the invariant, extends the log, keeps phones and identities, and moves each sequence by at most one step |
| `SmsSequenceRuns.ClosedIsFinal` | app/services/sms_sequence.py:254-276 | A completed or cancelled sequence never changes status or step again, and no step ever goes back, over any continuation of any run |
| `SmsSequenceRuns.ReplyMutes` | app/services/sms_inbox.py:63-103 | Recording a reply from a valid phone leaves the contact non-active |
| `SmsSequenceRuns.StaysMuted` | app/services/sms_sequence.py:155-159 | A non-active contact stays non-active through every event, and no event hands the provider a message for it |
| `SmsSequenceRuns.SilenceAfterReply` | app/services/sms_inbox.py:63-103 | Once a reply from a valid phone is recorded, no continuation of ticks, creations, replies and stops hands the provider a message for that phone |
| `SmsSequenceRuns.StopIsFinal` | app/services/sms_sequence.py:417-429 | After the stop step of a reply no sequence of the contact is active in any continuation |
| `SmsSequenceRuns.RefusalKeptIff` | app/services/sms_inbox.py:63-122 | A DO_NOT_CONTACT contact keeps that status through an event if and only if the event is neither a reply from its phone under a new event key nor the second transaction of a reply for it, other than a stop |
| `SmsSequenceRuns.RefusalLastsIff` | app/services/sms_inbox.py:63-122 | Over any run the status survives in every state between two points if and only if no event between overwrites it |
| `SmsSequenceRuns.StopWordIsOverwritten` | app/services/sms_inbox.py:96-101 | A stop followed by an ordinary reply: DO_NOT_CONTACT becomes PAUSED |
| `SmsEffects.ReplySettles` | app/services/sms_inbox.py:63-103 | A new reply is logged and makes exactly the contact of its phone DO_NOT_CONTACT for a stop, INVALID for an invalid text and PAUSED otherwise |
| `SmsEffects.StopSettles` | app/services/sms_sequence.py:417-429 | The second transaction cancels the active sequences of the contact, clears their due dates and leaves DO_NOT_CONTACT for a stop and PAUSED for every other kind, INVALID included |
| `SmsQuotas.SendRespectsQuota` | app/services/sms_sequence.py:318-335 | Whoever else writes the log, an engine send leaves its SIM within the campaign quota for the current day |
| `SmsQuotas.RunWithinQuota` | app/services/sms_sequence.py:318-335 | If only the engine sends, no SIM exceeds the largest campaign quota on any day of any run |
| `SmsCadence.RunOnTime` | app/services/sms_sequence.py:117-125 | In every state of a run whose visits to a sequence keep a pace, no logged step of it was sent earlier than its pace allows and its due date is no earlier than its next step |
| `SmsCadence.PaceBound` | app/services/sms_sequence.py:117-125 | A sequence whose visits keep a pace has sent at most k messages before step k may leave; nothing is asked of other sequences |
| `SmsCadence.CadenceBound` | app/services/sms_sequence.py:34-34 | A sequence visited with the default delays has sent at most min(8, 1 + floor((t - created) / 7 days)) messages by time t, none before its creation |
| `SmsCadence.TemplateCadence` | app/services/sms_sequence.py:121-125 | With one enabled template per step, a sequence has sent at most k messages until a day before the k-th template's delay has passed |
| `SmsCadence.DueMovesIffSchedulable` | app/services/sms_sequence.py:385-413 | After a logged send the send is counted and the due date set from the schedule if and only if the next step has at most one enabled template with a readable send time; otherwise the sequence stays active and due |
| `SmsCadence.TwoVariantsBurst` | app/services/sms_sequence.py:389-398 | With two enabled variants of the next step, two messages of one sequence leave in the same instant |
| `SmsDues.DueAfterSend` | app/services/sms_sequence.py:117-125 | After an accepted step k < 7 without template the due date is exactly 7 (k + 1) days after creation; with one readable template it is its send time on the day its delay falls on; after step 7 there is none and the sequence is completed; otherwise it stays |
| `SmsDues.RunDueExactly` | app/services/sms_sequence.py:385-413 | In every state of a run with default delays a sequence that sent step k and is active is due exactly 7 (k + 1) days after its creation |
| `SmsDues.CadenceMet` | app/services/sms_sequence.py:226-414 | A sequence with default delays that is served at each of its due dates up to t has sent exactly min(8, 1 + floor((t - created) / 7 days)) messages by t |
| `SmsWire.AcceptedBefore` | app/services/sms_sequence.py:253-413 | Until a visit raises, the provider accepts something exactly when some visit is accepted on the rows as the tick found them |
| `SmsWire.TickLogsAcceptedIff` | app/services/sms_sequence.py:239-413 | A tick logs every message the provider accepted if and only if it will not lose rows: inside the window, some visit to an open contact cannot render or list SIMs, and a visit before the first such one has an eligible SIM and an accepting provider; all read off the rows and visits before the tick |
| `SmsWire.WireMatchesLog` | app/services/sms_sequence.py:365-385 | Over any run whose ticks lose no rows the accepted messages are exactly the logged ones, in order |
| `SmsWire.AcceptedOnce` | app/services/sms_sequence.py:336-385 | Over any run whose ticks lose no rows no step of any sequence is accepted twice |
| `SmsWire.AbortedTickResends` | app/services/sms_sequence.py:239-309 | A tick that raises on its second visit forgets the first message, and the next tick sends it again |
| `SmsEngine.MessagingStore.EnsureContactSequence` | app/services/sms_sequence.py:128-189 | In-place creation or reuse of a sequence: whole new state, result and invariant |
| `SmsEngine.MessagingStore.PickSim` | app/services/sms_sequence.py:318-335 | The SIM loop returns the first active, allowed SIM under its quota |
| `SmsEngine.MessagingStore.Handle` | app/services/sms_sequence.py:253-413 | One visit updates rows, log and counters as specified, with every early exit |
| `SmsEngine.MessagingStore.RunDueSequences` | app/services/sms_sequence.py:226-414 | The engine loop: closed outside 8-20, visits in order, the whole transaction undone when a visit raises; keeps the invariant |
| `SmsEngine.MessagingStore.RecordInboundSms` | app/services/sms_inbox.py:45-103 | The first transaction of a reply: log row and contact status, refused for a repeated event key |
| `SmsEngine.MessagingStore.StopContactSequences` | app/services/sms_sequence.py:417-429 | The second transaction of a reply: contact status, active sequences cancelled without due date |
| `ApifyImports.CrashResume` | app/services/apify_ingestion.py:115-336 | After any number of attempts, each cut anywhere, a full import leaves the same items, contacts, listings, sequences and exceptions as one uninterrupted import (timestamps aside) and returns the same read, actionable and exception counters |
| `ApifyImports.ReplayIsNoop` | app/services/apify_ingestion.py:155-160 | Importing a dataset again changes nothing and returns the same counters with zero sequences created, whatever the campaign or blacklist have become |
| `ApifyImports.ImportErased` | app/services/apify_ingestion.py:310-336 | Two imports of the same dataset at different times differ only in timestamps |
| `ApifyImports.CountersMatchItems` | app/services/apify_ingestion.py:310-336 | The returned counters are exactly those read off the item rows of the dataset |
| `ApifyImports.ProgressIsConserved` | app/services/apify_ingestion.py:292-307 | read = imported + ignored + in exception, and the ignored figure obtained by subtraction is the number of ignored rows |
| `ApifyImporter.SavedPointsAreConserved` | app/services/apify_ingestion.py:292-331 | The same conservation at every saved progress point, with no negative figure |
| `ApifyImports.GrowsByCreated` | app/services/apify_ingestion.py:246-263 | The sequence table grows by exactly sequences_created |
| `ApifyImports.ImportKeepsConsistent` | app/services/apify_ingestion.py:213-289 | Every import keeps: one contact per phone, one sequence per (contact, campaign), one listing per URL, one item per dataset key, items linked to the sequence, contact and phone they report, one exception row per item in exception |
| `ApifyListings.ListingsOnlyGain` | app/services/apify_ingestion.py:163-200 | Over any import a listing never loses or changes a campaign, sector, title or phone it has, and listings are only added |
| `ApifyImports.EngineKeepsConsistent` | app/services/sms_sequence.py:226-429 | Whatever the follow-up engine does between imports keeps those links |
| `ApifyImports.ImportIsRun` | app/services/apify_ingestion.py:213-263 | For the follow-up engine an import is a run of sequence creations that sends nothing |
| `ApifyRuns.RunKeepsConsistent` | app/services/apify_ingestion.py:213-289 | Over any run that mixes imports, ticks, replies and stops the tables stay consistent |
| `ApifyRuns.SilenceAfterReply` | app/services/sms_inbox.py:63-103 | Once a reply from a valid phone is recorded, no continuation that mixes imports, ticks, creations, replies and stops hands the provider a message for that phone |
| `ApifyRuns.AttemptsWeave` | app/services/apify_ingestion.py:115-336 | Interrupted imports with the engine at work between them, and whatever the campaign has become, leave exactly the tables of an import that handles every entry once, in the attempt that first reaches it |
| `ApifyRuns.ResumeAfterEngine` | app/services/apify_ingestion.py:310-336 | The full import after such attempts handles only what none of them reached and returns the counters of the final item table |
| `ApifyImports.FirstImportDecides` | app/services/apify_ingestion.py:115-160 | An actionable item is imported if and only if handling it does not raise and the campaign runs or its phone is blacklisted at its first import; a later import never changes that |
| `ApifyLeads.NewItemIff` | app/services/apify_ingestion.py:213-263 | A new item is in exception, with one exception recorded, exactly when handling it does not raise and its phone is ambiguous; imported exactly when its lead is admitted; ignored otherwise |
| `ApifyLeads.OthersTouchNothing` | app/services/apify_ingestion.py:213-245 | An item that is not imported leaves contacts, sequences and listings alone |
| `ApifyLeads.CountersMatchLeads` | app/services/apify_ingestion.py:310-336 | A first import counts as exceptions exactly the ambiguous leads that do not raise and as actionable exactly the admitted leads |
| `ApifyLeads.UpsertIff` | app/services/apify_ingestion.py:163-200 | The listing of a lead: none without URL or platform, the known one with its gaps filled, or a new one holding what lead and campaign offer |
| `ApifyLeads.ImportedItemIsLinked` | app/services/apify_ingestion.py:246-263 | An imported item holds its phone and listing and is linked to its contact and, when that is open, to the sequence whose context holds what the lead offers |
| `ApifyImporter.Importer.UpsertRow` | app/services/apify_ingestion.py:163-200 | Listing upsert in place: only missing fields are filled |
| `ApifyImporter.Importer.ProcessItem` | app/services/apify_ingestion.py:213-263 | Processing a freshly inserted item, or an exception that leaves the savepoint |
| `ApifyImporter.Importer.ImportItem` | app/services/apify_ingestion.py:266-289 | Insert or replay, with the savepoint rolled back to an ignored row on failure |
| `ApifyImporter.Importer.ImportRun` | app/services/apify_ingestion.py:310-336 | The import loop: whole new state, counters, and every saved progress point |
| `CampaignRuns.BestIsFullest` | app/services/campaign_runner.py:54-62 | The chosen SIM is active, has quota, and no active SIM has more; none is chosen exactly when no capacity is left |
| `CampaignOutcomes.FirstFullestWins` | app/services/campaign_runner.py:54-62 | Among the fullest active SIMs the first in the list is chosen |
| `CampaignOutcomes.StartsWithReported` | app/services/campaign_runner.py:160-160 | A SIM starts with the quota the provider reports, or 15 without one |
| `CampaignRuns.BatchIsLevelled` | app/services/campaign_runner.py:159-223 | At every point of a batch each SIM has sent its initial minus current quota, capacity plus sends is constant, and every SIM used is within one of the fullest active SIM |
| `CampaignRuns.PausesExactlyWhenSpent` | app/services/campaign_runner.py:175-179 | A batch pauses for quota exactly when its sends equal the positive quota of the active SIMs, listings remain and no command interrupted it |
| `CampaignRuns.RunTextsOnce` | app/services/campaign_runner.py:118-151 | Over any run of batches, interleaved with anything that never makes a listing NOUVELLE again, no listing is texted successfully twice |
| `CampaignTotals.LoopStopsAt` | app/services/campaign_runner.py:162-223 | The loop stops at the first listing whose probe stops it, for the reason read off the probes and the capacity, having sent what was accepted before |
| `CampaignTotals.QuotaPauseIff` | app/services/campaign_runner.py:175-179 | A batch pauses for quota if and only if the first listing that stops it comes when the accepted messages have spent the capacity of the active SIMs |
| `CampaignOutcomes.InterruptionIff` | app/services/campaign_runner.py:282-298 | The check reads PAUSED or CANCELLED off the campaign, then off the workflow; a missing row is CANCELLED |
| `CampaignOutcomes.DoesNothingIff` | app/services/campaign_runner.py:87-116 | A batch does nothing exactly outside the window, for an unknown campaign, or for one neither PENDING nor RUNNING |
| `CampaignOutcomes.ReportIff` | app/services/campaign_runner.py:225-239 | PAUSED iff first stopped by spent capacity or an interruption that reads PAUSED, FAILED iff by a credit refusal, CANCELLED iff by an interruption that reads so, RUNNING iff nothing stops it and more than 200 listings were fetched, COMPLETED iff nothing stops it and no more were |
| `CampaignOutcomes.ClosesWithoutStop` | app/services/campaign_runner.py:225-270 | An unstopped batch adds the accepted and the refused messages, counted over the probes, to campaign and workflow |
| `CampaignOutcomes.ClosesAtStop` | app/services/campaign_runner.py:162-270 | A stopped batch adds what was accepted and refused before its stop, plus one failure for a credit refusal; an exception writes nothing |
| `CampaignOutcomes.SpentQuotaPauses` | app/services/campaign_runner.py:231-233 | One message left and two listings: PAUSED after one message |
| `CampaignOutcomes.TextsOnlyEligible` | app/services/campaign_runner.py:125-143 | A batch texts only NOUVELLE listings with a phone, and only its own when any listing is assigned to its campaign |
| `CampaignTotals.BatchKeepsCountsIff` | app/services/campaign_runner.py:183-252 | A batch keeps campaign.sent equal to the logged messages if and only if it will not lose its counters: it runs and the first listing that stops it is one the template cannot render, after at least one accepted message, within capacity |
| `CampaignTotals.RunKeepsCounts` | app/services/campaign_runner.py:239-252 | Over any run whose batches lose no counters campaign.sent is the number of messages logged for the campaign |
| `CampaignTotals.UntitledListingLosesCount` | app/services/campaign_runner.py:183-187 | A template such as {title[0]} and an untitled second listing: one message leaves and the campaign counts none |
| `CampaignStatuses.ProcessedStatusesAgree` | app/services/campaign_runner.py:253-270 | After a processed batch the campaign and its workflow carry the status it reported and no other workflow changed |
| `CampaignStatuses.RunKeepsAligned` | app/services/campaign_runner.py:225-270 | Over any run of batches and commands campaign and workflow carry the same status, except RUNNING and PENDING between a start, resume or retry and the batch it dispatches; after every processed batch they carry the status it reported |
| `CampaignControl.RunningUnlessInterrupted` | app/services/workflow_control.py:11-65 | From RUNNING commands lead to four pairs of statuses only, and the batch may continue if and only if nobody asked for a pause or a cancellation: a resume gives back RUNNING and PENDING |
| `CampaignControl.DispatchesIff` | app/services/campaign_control.py:16-24 | Which commands on an aligned pair dispatch a batch |
| `CampaignControl.HaltsIff` | app/services/workflow_control.py:11-20 | Which commands pause or cancel an aligned pair |
| `CampaignRuns.TimelySendIsSpaced` | app/services/campaign_runner.py:65-84 | Although elapsed time is cut to whole seconds, a send made after the computed delay is at least 120 s after the last one of its SIM |
| `CampaignOutcomes.WaitIsExact` | app/services/campaign_runner.py:65-84 | The wait completes the random gap within a second, is none exactly when the gap has passed, and is the whole gap for a SIM that never sent |
| `CampaignRuns.RunIsSpaced` | app/services/campaign_runner.py:179-205 | Over any run of sequential batches two sends of one SIM are at least 120 s apart |
| `CampaignRequeue.GoodBatchProgress` | app/services/campaign_runner.py:130-143 | A good batch texts min(200, backlog) listings and completes exactly when no backlog is left |
| `CampaignRequeue.RequeueTerminates` | app/tasks.py:486-501 | With N eligible listings, all sends accepted and enough quota, requeueing ends COMPLETED after exactly max(1, ceil(N / 200)) batches, with no backlog |
| `SmsCampaign.CampaignStore.SelectBestSim` | app/services/campaign_runner.py:54-62 | The selection loop returns the fullest active SIM, first in order on a tie |
| `SmsCampaign.CampaignStore.SendBatch` | app/services/campaign_runner.py:162-223 | The sending loop: rows, quotas, counters and the reason it stopped |
| `SmsCampaign.CampaignStore.RunCampaign` | app/services/campaign_runner.py:87-279 | The whole batch, from the window check to the final statuses |
| `SmsWindow.NextStartIsEarliest` | app/services/campaign_runner.py:33-43 | Outside the window, next_sms_window_start is the earliest in-window instant after now |
| `SmsWindow.RunsAfterDeferralIff` | app/services/campaign_runner.py:28-43 | A deferred batch picked up late by less than a day runs if and only if it is late by less than the window length; an empty window defers for ever |
| `SmsWindow.DeferredAtMostOnce` | app/services/campaign_runner.py:87-106 | With the shipped hours, a batch picked up less than twelve hours late is not deferred again |
| `LbcRuns.LeastUsedIsMinimal` | app/services/lbc_messaging.py:136-145 | The chosen account has quota left and no account with quota left has fewer sends |
| `LbcOutcomes.FirstLeastUsedWins` | app/services/lbc_messaging.py:131-136 | Among the least used accounts with quota left the first is chosen, none exactly when no account has quota left |
| `LbcRuns.BatchIsFair` | app/services/lbc_messaging.py:128-199 | At every point of a batch usage is the initial usage plus the sends, no account passes its quota if it started within it, and every account used is within one of every account with quota left |
| `LbcRuns.RunKeepsCap` | app/services/lbc_messaging.py:77-101 | Across sequential batches each (campaign, listing, step) has at most one row and no listing has more than three queued or sent messages |
| `LbcOutcomes.AtMostThree` | app/services/lbc_messaging.py:77-101 | From an empty table no listing ever has more than three queued or sent messages |
| `LbcTotals.DeliveryTakesRoom` | app/services/lbc_messaging.py:136-139 | A delivery lowers the total remaining room of the accounts by one |
| `LbcTotals.LoopStopsAt` | app/services/lbc_messaging.py:128-199 | The loop stops at the first listing that stops it, for the reason read off the room, the probes, the message keys and the commands, having delivered what was to be delivered before |
| `LbcOutcomes.DoesNotStartIff` | app/services/lbc_messaging.py:62-123 | When a batch changes nothing, and that one without accounts leaves PAUSED and a FAILED workflow |
| `LbcOutcomes.EndsWithoutStop` | app/services/lbc_messaging.py:201-226 | An unstopped batch reports RUNNING iff more than 25 listings were fetched, COMPLETED otherwise, unless a late command left PAUSED or CANCELLED; it adds what it delivered and what failed |
| `LbcOutcomes.EndsAtStop` | app/services/lbc_messaging.py:128-226 | Spent quotas pause campaign and workflow and an exception fails both, without adding anything; an interrupted batch reports what the commands left |
| `LbcTotals.BatchKeepsTotalsIff` | app/services/lbc_messaging.py:128-226 | Every sent total agrees with the sent rows after a batch if and only if the first listing that stops it is not one that finds no room or does not render after at least one delivery; all read off the inputs |
| `LbcTotals.RunKeepsTotals` | app/services/lbc_messaging.py:128-226 | Over any run of batches and commands without such batches the totals stay right |
| `LbcTotals.QuotaLosesTotal` | app/services/lbc_messaging.py:137-139 | Two listings and a quota of one: one message leaves and the campaign counts none |
| `LbcFailures.TurnWritesIff` | app/services/lbc_messaging.py:128-199 | Exactly when a turn writes a row |
| `LbcFailures.FailureBlocks` | app/services/lbc_messaging.py:475-515 | A message that is written and not delivered leaves its listing blocked for its campaign |
| `LbcFailures.BatchUnblocksIff` | app/services/lbc_messaging.py:475-500 | A batch leaves a blocked listing blocked if and only if it does not reach that listing |
| `LbcFailures.FailureLastsIff` | app/services/lbc_messaging.py:475-500 | Over any run of batches of any campaigns a blocked listing stays blocked, its step unchanged, if and only if no batch of another campaign reaches it |
| `LbcFailures.OtherCampaignFrees` | app/services/lbc_messaging.py:475-500 | Another campaign reaches a blocked listing, and the blocked campaign messages it again |
| `LbcTotals.CompletedEarlyIff` | app/services/lbc_messaging.py:201-226 | A batch reports COMPLETED with listings left if and only if it holds the last of the backlog, what first stops it is a pause or a cancellation, and the commands up to its end take that back |
| `LbcTotals.ResumeCompletesEarly` | app/services/workflow_control.py:53-65 | A pause and a resume during a message: the remaining listing is dropped and the batch reports COMPLETED |
| `LbcSender.MessageStore.QueueMessage` | app/services/lbc_messaging.py:475-500 | A queued row is inserted unless its key exists |
| `LbcSender.MessageStore.MarkMessage` | app/services/lbc_messaging.py:503-515 | Exactly the row with the key changes status |
| `LbcSender.MessageStore.SendBatch` | app/services/lbc_messaging.py:128-199 | The batch loop of queue, attempt and mark |
| `LbcSender.MessageStore.RunCampaignBatch` | app/services/lbc_messaging.py:107-226 | The whole batch with its early returns |
| `PayloadFlattening.FlattenPayload` | app/services/apify_normalizer.py:44-72 | The explicit-stack loop terminates on every finite JSON tree and equals the recursive document-order flattening with the depth cut-off |
| `PayloadFlattening.LaterValueWins` | app/services/apify_normalizer.py:44-72 | Paths are distinct and each holds the value of its last occurrence in document order |
| `PayloadFlattening.ShallowPayloadFlattensToScalars` | app/services/apify_normalizer.py:44-72 | A payload within the depth limit flattens to scalars only |
| `PayloadFlattening.SchemaContactPaths` | app/services/apify_normalizer.py:84-103 | The worklist loop terminates and equals the recursive set of contact paths |
| `PayloadFlattening.CutOffAtHundred` | app/services/apify_normalizer.py:49-53 | Containers are opened down to depth 100 and stored whole below it |
| `SchemaContacts.ContactIff` | app/services/apify_normalizer.py:98-101 | A property is a contact if and only if its name, description or format says phone, telephone, mobile or contact |
| `PhoneChoice.CandidatesOfPaths` | app/services/apify_normalizer.py:157-180 | The phone candidates are exactly the flattened paths that hold a phone, with their scores |
| `PhoneChoice.Dedupe` | app/services/apify_normalizer.py:255-264 | The dedupe loop keeps one candidate per phone, its best, best first |
| `PhoneChoice.ChoosePhone` | app/services/apify_normalizer.py:255-271 | An exception exactly when the two best distinct phones are less than 10 points apart; otherwise the chosen phone beats every other by at least 10; the evidence is the first candidate with the best score |
| `PayloadOrder.MakeLast` | app/services/apify_normalizer.py:44-72 | Any leaf of a payload has the last word on its path in some order of the fields |
| `PayloadOrder.FlatteningIsStableIff` | app/services/apify_normalizer.py:44-72 | The flattening is the same for every order of the fields, at every level, if and only if leaves that share a path agree on its value and no container below the depth limit can itself be reordered |
| `PhoneOrder.OrderIndependent` | app/services/apify_normalizer.py:157-271 | The kind of answer, the phone and its score are the same for every order of such a payload |
| `PhoneOrder.OrderIndependentIff` | app/services/apify_normalizer.py:157-271 | The answer is the same for every order of the payload, whatever the scoring rules, if and only if the payload is such a one |
| `PhoneOrder.CollisionFlipsPhone` | app/services/apify_normalizer.py:44-72 | A dotted key that collides with a nested one: swapping two fields changes the phone |
| `PhoneOrder.EvidenceFixedIff` | app/services/apify_normalizer.py:255-298 | The evidence is the same for every order of the candidates if and only if a single candidate has the best score |
| `PhoneChoice.MappedPathWins` | app/services/apify_normalizer.py:125-144 | A phone at the path the profile maps always wins |
| `PhoneRanks.BestPhoneWins` | app/services/apify_normalizer.py:125-271 | When the best place that holds a phone (mapped path, schema contact, phone-named key, elsewhere) holds a single one, it is chosen over any phone elsewhere, with score 110, 100, 80 or 40 |
| `PhoneRanks.TwoBestPhonesClash` | app/services/apify_normalizer.py:255-271 | Two distinct phones in that place make the lead an exception with the score of the place |
| `PhoneRanks.NoPhoneIff` | app/services/apify_normalizer.py:255-271 | No phone is chosen exactly when the payload holds none |
| `ProfileGate.KeepIff` | app/services/apify_learning.py:56-158 | keep if and only if: sample large enough, same items once each in both lists, no phone changed or lost, none newly blacklisted, new coverage has two signals, ambiguities and duplicates do not grow, and complexity grows only with results |
| `ProfileReasons.ReasonIsFirstGate` | app/services/apify_learning.py:56-158 | The reason is the first gate that fails, each gate stated on the fields of the rows |
| `ProfileReasons.VerdictByReason` | app/services/apify_learning.py:56-158 | keep exactly for the safe reason, crash exactly when the corpora cannot be compared |
| `ProfileGround.KeepKeepsGround` | app/services/apify_learning.py:44-158 | keep never loses ground: every phone kept, coverage not lower, ambiguities, duplicates and blacklisted items not higher |
| `ProfileGround.ChainKeepsGround` | app/services/apify_learning.py:56-158 | Along any chain of keep decisions the first and last profiles satisfy the same relation |
| `ProfileGround.SelfComparison` | app/services/apify_learning.py:56-158 | A corpus compared with itself is keep if and only if it is large enough and well keyed |
| `ProfileGround.MarkDuplicates` | app/services/apify_learning.py:215-222 | The two-pass loop updates each row in place to the specified flag |
| `ProfileGround.FlaggedIffSeen` | app/services/apify_learning.py:215-222 | A fresh row is flagged exactly when its phone occurred before |
| `ProfileGround.FlaggedIsSurplus` | app/tasks.py:225-230 | The number flagged is len(phones) - len(set(phones)), the figure of the circuit breaker |
| `ProfileRegistry.RunKeepsInv` | app/services/apify_learning.py:172-212 | Over any run of commands a profile is ACTIVE iff its own binding points to it, versions per binding are exactly 1..n, profiles keep identity and mappings, and none returns to CANDIDATE |
| `ProfileRegistry.OneActivePerBinding` | app/services/apify_learning.py:341-418 | At most one profile of a binding is active |
| `ProfileCommands.CreateIff` | app/services/apify_learning.py:172-212 | The next version for a known binding, mapping what was inferred and otherwise what the active profile maps |
| `ProfileCommands.EvaluateIff` | app/services/apify_learning.py:274-338 | An experiment is recorded exactly for a candidate, against the profile active then; a failed replay is a crash |
| `ProfileCommands.PromoteIff` | app/services/apify_learning.py:341-383 | Promoted exactly when a candidate whose latest experiment is keep, refused for the first reason otherwise; the former active profile is retired and nothing else changes |
| `ProfileCommands.RollbackIff` | app/services/apify_learning.py:386-418 | Rolled back exactly to a profile of the same binding |
| `ProfileRegistry.ApprovalKeptIff` | app/services/apify_learning.py:386-418 | A command keeps every used profile approved if and only if it is not a rollback to an unapproved candidate |
| `ProfileRegistry.RunStaysApproved` | app/services/apify_learning.py:341-383 | Over any run without such rollbacks every active or retired profile has an approving experiment |
| `ProfileRegistry.ActiveKeptGround` | app/services/apify_learning.py:274-383 | Over any such run the active profile of a binding lost no ground on the corpus it was evaluated on |
| `ProfileRegistry.RollbackActivatesCandidate` | app/services/apify_learning.py:386-418 | Create then rollback activates a profile that was never evaluated |
| `ProfileStore.ProfileTables.CreateCandidate` | app/services/apify_learning.py:172-212 | Next version by a loop over the rows, mappings inherited and overridden; whole new state |
| `ProfileStore.ProfileTables.EvaluateCandidate` | app/services/apify_learning.py:274-338 | The experiment is recorded for candidates only; a failed replay is a crash |
| `ProfileStore.ProfileTables.PromoteProfile` | app/services/apify_learning.py:341-383 | Promotion with its four refusals; whole new state |
| `ProfileStore.ProfileTables.RollbackProfile` | app/services/apify_learning.py:386-418 | Rollback with its two refusals; whole new state |
| `ResourceLock.MutualExclusion` | app/services/resource_lock.py:18-45 | Over all interleavings of claim, release and clock advance no resource row is held by two owners at once |
| `ResourceLock.GrantedIffFree` | app/services/resource_lock.py:18-35 | In a reachable state a claim is granted if and only if the row exists and no other owner holds it |
| `ResourceLock.LeaseIsProtected` | app/services/resource_lock.py:38-45 | Until it expires a lease survives whatever others do: the row is untouched, their claims are refused, a late release changes nothing |
| `ResourceLock.TakenOverIff` | app/services/resource_lock.py:22-33 | After a wait another owner takes the resource if and only if the wait outlasts the lease, which nothing renews |
| `ResourceLock.GrantLasts` | app/services/resource_lock.py:20-33 | A granted claim lasts exactly its time to live, counted from the sampled clock |
| `ResourceLock.OneUserEachIff` | app/tables.py:114-124 | Each account, proxy or SIM has at most one user in every run if and only if no two assignment rows stand for it |
| `ResourceLock.LockTable.ClaimResource` | app/services/resource_lock.py:18-35 | The conditional update in place |
| `ResourceLock.LockTable.ReleaseResource` | app/services/resource_lock.py:38-45 | Only the row locked by the owner is freed |
| `SectorCollection.NothingStaysLocked` | app/services/sector_collection.py:116-192 | Whatever others do, and whether the run returns or raises, no row is still locked by its owner; past the claims it leased one resource per needed kind |
| `SectorCollection.ScrapesUnderLease` | app/services/sector_collection.py:140-163 | While it scrapes every unexpired lease of the run is its own and no other owner holds it |
| `SectorCollection.CompletesIff` | app/services/sector_collection.py:138-163 | Without interference a run completes iff its source is known, the scrape succeeds and each needed kind has a row no other owner holds |
| `SectorCollection.EndingIff` | app/services/sector_collection.py:138-163 | Without interference, which of the five failures ends the run |
| `SectorCollection.LeasesFiveMinutes` | app/services/resource_lock.py:18-33 | A lease taken without interference lasts five minutes |
| `SectorCollection.PagesFor` | app/services/sector_collection.py:113-113 | The last page is 1 exactly below 20 listings left, 100 exactly from 1980 on, and n between when 20 (n - 1) <= left < 20 n |
| `SectorCollection.RunIsAsked` | app/services/sector_collection.py:96-175 | A run starts at the checkpoint, is asked up to the last page its volume gives, and moves the checkpoint by that number exactly when it completes |
| `SectorCollection.TwentyListings` | app/services/sector_collection.py:113-113 | 20 listings left: pages 1 and 2, then page 3; 100 left: up to page 6 |
| `SectorCollection.CoversItsClaimIff` | app/services/scraper.py:235-244 | A completed run covers the pages its checkpoint skips if and only if it started from page 1: the scrapers take for a last page what the checkpoint counts as a number of pages |
| `SectorCollection.NeverAskedTwice` | app/services/sector_collection.py:96-175 | Completed runs of a sector are never asked twice for a page, nor for one at or after the checkpoint, nor for one beyond 100 |
| `SectorCollection.NoGapIff` | app/services/sector_collection.py:96-175 | Every page before the checkpoint was asked for if and only if at most one run has completed |
| `SectorCollection.BlindAfterHundred` | app/services/sector_collection.py:96-175 | Once the checkpoint has passed page 100 every later run is asked for no page, and the checkpoint never goes back |
| `SectorCollection.SecondRunVisitsNothing` | app/services/sector_collection.py:96-175 | Two completed runs with 50 listings left each: pages 1 to 3, then none, and pages 4 to 6 are skipped |
| `SectorCollection.CollectSector` | app/services/sector_collection.py:112-192 | The run with its claim and release loops: final table, ending, and nothing left locked |

## Left out

- Phone parsing, regular expressions, hashing, encryption, JSON encoding and reply classification: their results are inputs.
- Message texts and variant rotation: they do not influence any state modelled here.
- Two engine ticks, or two batches of one campaign, at the same time: transactions are atomic and batches sequential. The batch a resume dispatches while the interrupted one still runs is not part of the model.
- Several workflows of one campaign: commands act on the campaign and its latest workflow.
- A crash between a provider's acceptance and the commit of its log row.
- Daylight-saving shifts: days in `SmsSequence` are UTC days as in the source, hours in `SmsWindow` are local wall-clock hours.
- The criteria of the listing and due queries beyond those named in `ValidFetch` and `ValidPick`: any answer that meets them is allowed.
- Inbound replies are retried from pending events: the retry loop is not part of the model, only the repeated event key.
- The optional model fallback of the normalizer, and its fields other than the phone.
- `seen` containers in the flattening loop: a decoded JSON tree never shares a container, so the check never skips one.
- Lower-casing outside ASCII in contact paths.
- The rates and thresholds of the import circuit breaker beyond its duplicate count.
- Whether an experiment's baseline is still the active profile when its candidate is promoted: the source does not check it.
- What a scraper finds on the pages it visits, or that it stops early at a page without new listings; sector schedules, and how the daily volume left is computed.
- Account creation, warm-up, one-time codes, proxies, scraping, HTTP routes, WebSocket, health and the front end: calls to external systems.
- CampaignRequeue.RequeueTerminates: assumes every listing of every batch is sent, because a blacklisted or refused listing stays NOUVELLE and requeueing need not end.
- SmsCadence.CadenceBound: assumes default delays for the sequence it speaks of; `PaceBound` and `TemplateCadence` give the bound for enabled templates.
- SmsCadence.PaceBound: does not cover a visit whose next step cannot be scheduled, because the due date then stays in the past.
- CampaignRuns.RunTextsOnce: assumes nothing outside the runner puts a texted listing back to NOUVELLE, a status the source gives only to new listings.
- CampaignRuns.RunIsSpaced: assumes each row is written no earlier than its computed delay allows and that clocks do not run backwards.
