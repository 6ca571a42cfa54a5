# Verified model of the support platform's cores

A Dafny model of the parts of the support platform that are easy to get wrong: the business-hours clock,
metered billing, Stripe subscription events, the webhook queue, the CSV import, the login code, the automation
engine, the AI reply guard and the reply sanitizer. `dafny verify dfyconfig.toml` checks everything.

Database statements (a conditional update, an upsert, a transaction) are atomic steps; whatever lies between two
statements may be interleaved with other requests and workers, or never happen. Each core that more than one
caller uses at a time is therefore a step system with theorems over every schedule. Beside it stands a class
with the stored fields and the service's methods, each proved to be a run, or a specification function, of that
system. Loops over text, rows and days are methods proved against functions, and the laws are lemmas about those
functions.

| files | what they model |
|---|---|
| `BusinessHours`, `BusinessHoursLaws`, `SlaPolicy` | the clock that counts working minutes, its laws, and SLA due dates on top of it |
| `Identifiers`, `Metering`, `OverageService` | capped counters, concurrent flushes to Stripe, the high-water mark |
| `SubscriptionEvents`, `SubscriptionRaces`, `BillingService` | subscription events under duplicated, reordered and interrupted delivery, one at a time and at the same time |
| `WebhookQueue`, `WebhookWorker` | polling, claiming, leasing, attempting and recording webhook deliveries |
| `JsText`, `Csv`, `CsvWriter` | the CSV parser, a family of RFC 4180 writers, and the round trip between them |
| `ZendeskMapper`, `ImportReading`, `ImportsService`, `ExportRoundTrip` | mapping a file to tickets, what that reads off its cells, importing it again and again, and reading an export back |
| `LoginOtp`, `OtpCodes` | one login challenge under concurrent verify and resend calls |
| `AutomationEngine`, `AutomationRuns` | conditions, lazily loaded contexts, rule order, actions, dry runs |
| `AiReply`, `AiReplyRate`, `AiReplyHandoff`, `AiReplyService` | the AI reply pipeline: one reply per message, the rate guard, the sticky handoff |
| `Options` | values that may be absent |
| `PyText`, `ReplySanitizer`, `ReplyLength` | removing knowledge-base leakage from a reply and limiting its length |

What turned out not to hold as a comment or a reader might have it, each with its exact condition:

- The comment above `addBusinessMinutes` (lines 59-64) lands a four-hour SLA from 4pm Friday at 3pm Monday. That is
  so only for a noon opening; the model follows the code (`FridayFourHours`).
- Adding minutes in two steps equals adding them at once except when the sum trips the breaker and the first step
  does not fit into the starting day (`AddAdditive`, `TwoStepsGoFurther`), and, for starts inside a minute, across
  windows that meet at midnight (`AddMsAdditive`, `SecondsDiffer`).
- "Every failure becomes a retry or a dead row" fails exactly for an error whose message is empty: the row is
  recorded as delivered (`DeliveredUnlessSilent`).
- A reply is billed as overage ahead of the month's allowance exactly when a request names a month in which both
  counters are below the plan (`AllowanceFirstIff`): a request refused in one month and charged in the next
  (`MonthBoundaryGrantsEarlyOverage`), and no other (`OverageOnlyAfterAllowance`).
- Subscription events do depend on order when the newest has no definite status (`TwoEventsCommute`, `PauseBeforeUpgradeDiffers`). Handled at the
  same time, a write moves its row back exactly when the last event written since its read is newer (`CommitGoesBackIff`,
  `LastWriterDecides`, `ReactivationIsLost`).
- On a list, "not contains" is not the opposite of "contains" (`ListContainsGap`, `VipGoldIsNeither`); handing a ticket
  back to its first assignee is dropped (`AssignmentTakesEffect`, `HandingBackIsLost`).
- The rate guard allows 5 + p replies in ten minutes when p runs overlap, and no fewer (`RateIsBounded`,
  `RateBoundIsReached`).
- Without an edit the handoff fails to stick exactly when the guards other than the rate are open or a run that passed
  them has yet to post (`HandoffBreaksIff`): after a death between reply and tag (`DeathReopensIff`), which a retry does
  not repair (`RerunNeverTags`), and when runs overlap (`OverlapBreaksHandoff`). An edit can undo it too
  (`EditReopensIff`).
- The resend cooldown can fail exactly when another resend is under way as a code is stored (`NextCodeTooSoonIff`,
  `TwoResendsAtOnce`).
- A tag added to a ticket between a run's read and its handoff is lost (`HandoffWritesTagsBack`,
  `TagAddedMeanwhileIsLost`).
- A claim's stamp can be reused exactly by a manual retry that writes what an earlier poll saw (`ClaimWinsIff`,
  `RetryReusesTheStamp`).

## Model

| member | source | states |
|---|---|---|
| `BusinessHours.AddIsEarliest` | apps/api/src/lib/business-hours.ts:65-102 | For n > 0 the day-skipping loops stop at the least time by which n working minutes, counted minute by minute, have passed; they trip the breaker if and only if the 400 calendar days hold fewer than n, and then land at opening time of the 400th day |
| `BusinessHours.AddNothingSnaps` | apps/api/src/lib/business-hours.ts:70-80 | With nothing to count the clock moves to the next working minute, if the 400 days hold one |
| `BusinessHours.SnapLands` | apps/api/src/lib/business-hours.ts:70-80 | The first loop skips only idle time, advances one day per step, and ends inside a window unless the breaker stopped it |
| `BusinessHours.CountdownCounts` | apps/api/src/lib/business-hours.ts:82-99 | The second loop, from any day and counter, owes nothing at the end if and only if enough working minutes lie before the breaker, and then stops exactly after the last of them |
| `BusinessHoursLaws.NeverBeyond400Days` | apps/api/src/lib/business-hours.ts:15-99 | No answer lies before the start or more than 400 calendar days after it |
| `BusinessHoursLaws.WeekdaysAreDated` | apps/api/src/lib/business-hours.ts:30-32 | Weekdays go round the week and 1970-01-01 and 2026-01-01 are Thursdays |
| `BusinessHoursLaws.WithinMeans` | apps/api/src/lib/business-hours.ts:30-32 | A minute counts exactly when its day is no holiday, its weekday is a working day and it lies from opening up to closing |
| `BusinessHoursLaws.LastMinuteCounts` | apps/api/src/lib/business-hours.ts:65-102 | The last minute worked before an answer lies on such a day, in the window |
| `BusinessHoursLaws.HolidaysPostpone` | apps/api/src/lib/business-hours.ts:30-32 | One more holiday never makes anything due earlier, and makes it later when minutes would have been worked on it |
| `BusinessHoursLaws.AddMonotoneInMinutes` | apps/api/src/lib/business-hours.ts:65-102 | More minutes never end earlier, breaker or not |
| `BusinessHoursLaws.AddMonotoneInStart` | apps/api/src/lib/business-hours.ts:65-102 | A later start never ends earlier, breaker or not |
| `BusinessHoursLaws.StaysOnDayIff` | apps/api/src/lib/business-hours.ts:65-102 | An answer lies on the starting day if and only if the minutes fit into what is left of its window and do not end at midnight |
| `BusinessHoursLaws.AddAdditive` | apps/api/src/lib/business-hours.ts:65-102 | add(add(f,a),b) = add(f,a+b) if and only if the sum does not trip the breaker or the first step fits into the starting day |
| `BusinessHoursLaws.TwoStepsGoFurther` | apps/api/src/lib/business-hours.ts:65-102 | Round the clock, a day and then 400 days go further than 401 days at once |
| `BusinessHoursLaws.FridayFourHours` | apps/api/src/lib/business-hours.ts:59-102 | In a Monday-to-Friday week with a 5pm cutoff, an opening by 4pm and no holidays, four hours from 4pm on Friday end at 3pm on Monday if and only if the opening is noon; with a 9am opening they end at noon |
| `BusinessHoursLaws.BreakerNeverTruncates` | apps/api/src/lib/business-hours.ts:70-99 | If every seven consecutive days hold a working day, up to 57 windows of minutes never trip the breaker |
| `BusinessHoursLaws.PlainScheduleNeverTruncates` | apps/api/src/lib/business-hours.ts:15-31 | A schedule without holidays that names a real weekday meets that condition |
| `BusinessHoursLaws.AddMsMonotoneInMinutes` | apps/api/src/lib/business-hours.ts:65-102 | Monotone in the minutes also for starts inside a minute |
| `BusinessHoursLaws.AddMsMonotoneInStart` | apps/api/src/lib/business-hours.ts:65-102 | Monotone in the start also in milliseconds |
| `BusinessHoursLaws.AddMsAdditive` | apps/api/src/lib/business-hours.ts:82-99 | In milliseconds, for all sums: additive if and only if additive in minutes and not across midnight, where windows meet, the start is inside a minute, the first step ends there and the second stays in the next day |
| `BusinessHoursLaws.SecondsDiffer` | apps/api/src/lib/business-hours.ts:82-99 | Round the clock from half a minute past midnight, a day and then a minute differ from a day and a minute at once |
| `BusinessHoursLaws.SnapForward` | apps/api/src/lib/business-hours.ts:70-80 | The first loop computes the specified cursor and counter; seconds survive only when the start was already in a window |
| `BusinessHoursLaws.SpendWindows` | apps/api/src/lib/business-hours.ts:82-99 | The two nested loops compute the specified countdown; seconds survive only while the cursor stays in its window |
| `BusinessHoursLaws.AddBusinessMinutes` | apps/api/src/lib/business-hours.ts:65-102 | The whole method equals the clock the laws are about; without a trip its last minute lies on a working day that is no holiday, in the window, and inside one window it adds plain minutes |
| `BusinessHoursLaws.IsWithinBusinessHoursAt` | apps/api/src/lib/business-hours.ts:105-108 | True exactly when the day is no holiday, its weekday is a working day and the minute lies in the window |
| `SlaPolicy.ComputeSlaDueDates` | apps/api/src/modules/sla/sla-policy.ts:48-68 | Both due dates: plain elapsed minutes without hours or with hours that are not valid, business minutes otherwise; the response is due no later than the resolution when the policy minutes are so ordered |
| `SlaPolicy.DueDatesOrdered` | apps/api/src/modules/sla/sla-policy.ts:48-68 | Ordered minutes give ordered due dates for every start, tripping or not |
| `SlaPolicy.DueDatesReflectPolicy` | apps/api/src/modules/sla/sla-policy.ts:48-68 | For targets the breaker does not cut, due dates are ordered if and only if the minutes are |
| `Identifiers.IdentifierInjective` | apps/api/src/modules/billing/overage.service.ts:13 | No two units of any organizations and months share a meter-event identifier |
| `Identifiers.IdentifierPrints` | apps/api/src/modules/billing/overage.service.ts:13 | The identifier of unit 12 of an organization's June, spelled out |
| `Metering.Consume` | apps/api/src/modules/billing/usage.service.ts:15-37 | One upsert: it succeeds exactly when the amount still fits under the limit, adds the amount then, and touches no other counter |
| `Metering.NextUnitHolds` | apps/api/src/modules/billing/overage.service.ts:65-72 | Accepting the next unit, or a unit of another account, keeps what Stripe holds a gap-free prefix |
| `Metering.StepKeepsCounted` | apps/api/src/modules/billing/usage.service.ts:15-37 | Under every step each counter equals the replies granted from it and stays within the plan |
| `Metering.RunIsExact` | apps/api/src/modules/billing/overage.service.ts:51-88 | Over every schedule of requests, concurrent flushes, lost responses and crashes: Stripe holds units 1 to b with reported <= b <= counted, and the mark and b never decrease |
| `Metering.NeverOverbilled` | apps/api/src/modules/billing/overage.service.ts:33-88 | From an empty start, billed units never exceed granted overage replies, both stay within one allowance, and an unlimited plan is never billed |
| `Metering.StepKeepsAllowanceFirstIff` | apps/api/src/modules/billing/entitlements.service.ts:60-67 | A step grants overage ahead of the allowance if and only if it is an eligible request whose named month has both counters below the plan |
| `Metering.AllowanceFirstIff` | apps/api/src/modules/billing/entitlements.service.ts:60-67 | Over any schedule and any months the allowance comes first all along if and only if no step is of that kind |
| `Metering.OverageOnlyAfterAllowance` | apps/api/src/modules/billing/entitlements.service.ts:60-67 | It does whenever every request asks for overage in the month its own allowance was refused in, with any number of months mixed |
| `Metering.MonthBoundaryGrantsEarlyOverage` | apps/api/src/modules/billing/entitlements.service.ts:60-67 | A request refused in one month can take its overage unit from the next month, whose allowance is untouched |
| `Metering.FlushAloneIsARun` | apps/api/src/modules/billing/overage.service.ts:51-88 | An uninterrupted flush is one of the interleavings |
| `Metering.FlushAdvances` | apps/api/src/modules/billing/overage.service.ts:56-87 | A flush without faults moves the mark by min(200, gap) and changes nothing when there is no gap |
| `Metering.RoundsReport` | apps/api/src/modules/billing/overage.service.ts:56-87 | n rounds report min(gap, 200 n); after ceil(gap/200) rounds everything counted is reported and billed, and a further flush changes nothing |
| `OverageService.UsageStore.TryConsume` | apps/api/src/modules/billing/overage.service.ts:37-48 | Granted exactly when eligible, limited and under the cap; the counter moves by one then and nothing else does |
| `OverageService.UsageStore.ConsumeAiReply` | apps/api/src/modules/billing/entitlements.service.ts:60-67 | Takes from the allowance first and from the overage otherwise, as the matching steps of the protocol |
| `OverageService.UsageStore.SendUnreported` | apps/api/src/modules/billing/overage.service.ts:64-77 | The unit loop sends in order and stops at the first response that is not a success |
| `OverageService.UsageStore.Flush` | apps/api/src/modules/billing/overage.service.ts:51-88 | The method is the specified flush and returns by how much the mark moved |
| `SubscriptionEvents.DefiniteDecides` | apps/api/src/modules/billing/plans.ts:48-62 | A status ignores the current tier if and only if it is one of the six definite ones |
| `SubscriptionEvents.PaidTierIsFirstKnown` | apps/api/src/modules/billing/billing.service.ts:20-28 | Plan and period come from the first configured price, wherever a metered item sits |
| `SubscriptionEvents.ProcessIsLocal` | apps/api/src/modules/billing/billing.service.ts:227-311 | A delivery touches no row but its own customer's and never moves that row's clock back |
| `SubscriptionEvents.ProcessApplies` | apps/api/src/modules/billing/billing.service.ts:270-311 | A matching event that is not stale writes exactly its row and its organization's tier, and is marked unless the handler dies first |
| `SubscriptionEvents.ProcessIgnores` | apps/api/src/modules/billing/billing.service.ts:227-290 | Any other delivery changes no row and no tier |
| `SubscriptionEvents.NewestWins` | apps/api/src/modules/billing/billing.service.ts:227-311 | Under any duplication, order and crashes, once the newest event has completed the row and the organization show exactly that event |
| `SubscriptionEvents.OrdersAgree` | apps/api/src/modules/billing/billing.service.ts:227-311 | Any two delivery histories with the same newest event end in the same row and tier |
| `SubscriptionEvents.NewestShowsItsPlan` | apps/api/src/modules/billing/billing.service.ts:270-311 | After any history whose newest event has completed: for active, trialing and past_due the tier is the plan of the event's first configured price and the subscription id is kept; for canceled, unpaid and incomplete_expired the tier is free and the id is dropped; period, cancellation and time are the event's |
| `SubscriptionEvents.DeliveryShowsItsPlan` | apps/api/src/modules/billing/billing.service.ts:270-311 | The same for one delivery with any status, under conditions on its own fields; an unconfirmed status leaves the tier alone |
| `SubscriptionEvents.TiersNeverDrift` | apps/api/src/modules/billing/billing.service.ts:298-311 | Subscription and organization tier stay equal over every history |
| `SubscriptionEvents.TwoEventsCommute` | apps/api/src/modules/billing/plans.ts:48-62 | Two deliveries commute if and only if the newer status is definite or the older event leaves the tier alone |
| `SubscriptionEvents.PauseBeforeUpgradeDiffers` | apps/api/src/modules/billing/plans.ts:48-62 | An upgrade and the pause after it: in order the organization keeps the upgrade, swapped it never gets it |
| `SubscriptionRaces.CommitGoesBackIff` | apps/api/src/modules/billing/billing.service.ts:274-311 | After any schedule of separate reads and writes of any number of handlers, a write moves its row's clock back if and only if the last event written for that customer since the handler's read is newer |
| `SubscriptionRaces.CommitIsAtomic` | apps/api/src/modules/billing/billing.service.ts:274-311 | A write whose customer nobody has written since the read is the whole handler done at that moment |
| `SubscriptionRaces.TogetherIsSerial` | apps/api/src/modules/billing/billing.service.ts:274-311 | If that holds of every write, any interleaving equals one-at-a-time handling in the order of the writes, and no row's clock ever goes back |
| `SubscriptionRaces.LastWriterDecides` | apps/api/src/modules/billing/billing.service.ts:298-311 | Of two handlers of one customer that have both read, the last to write decides the row; it ends at the older event if and only if the older one writes last |
| `SubscriptionRaces.ReactivationIsLost` | apps/api/src/modules/billing/billing.service.ts:274-311 | A cancellation and the reactivation that followed it, handled at once, leave the organization on the free tier |
| `BillingService.BillingStore.ApplySubscriptionEvent` | apps/api/src/modules/billing/billing.service.ts:270-311 | The method is the specified application of an event |
| `BillingService.BillingStore.ProcessEvent` | apps/api/src/modules/billing/billing.service.ts:227-257 | The handler is the specified processing, reports a duplicate exactly for a marked event, and "handled" only after marking |
| `WebhookQueue.BackoffGrows` | apps/api/src/modules/webhooks/webhook-delivery.service.ts:17-24 | Waiting times lie between 30 seconds and six hours and rise strictly up to the seventh |
| `WebhookQueue.DeliveredUnlessSilent` | apps/api/src/modules/webhooks/webhook-delivery.service.ts:93-164 | A row is recorded as delivered without a 2xx answer if and only if the attempt failed with an empty message; a retry waits at least 30 seconds |
| `WebhookQueue.RecordedByCode` | apps/api/src/modules/webhooks/webhook-delivery.service.ts:93-164 | The record by status code and attempt: 2xx delivers, 410 buries, anything else waits out its backoff and buries at the eighth attempt or for a test event |
| `WebhookQueue.GoneSwitchesOff` | apps/api/src/modules/webhooks/webhook-delivery.service.ts:136-150 | An attempt that found its endpoint active switches it off if and only if it is answered 410 |
| `WebhookQueue.OnlyGoneSwitchesOff` | apps/api/src/modules/webhooks/webhook-delivery.service.ts:136-150 | Over every schedule an endpoint is only switched off by hand or by an attempt answered 410 |
| `WebhookQueue.StepKeepsSafe` | apps/api/src/worker/webhook-delivery.worker.ts:22-45 | Every step keeps mutual exclusion, the attempt budget and the spacing of attempts |
| `WebhookQueue.RunIsSafe` | apps/api/src/worker/webhook-delivery.worker.ts:22-45 | So does every schedule of polls, claims, attempts, deaths and retries |
| `WebhookQueue.NeverTwoAttempts` | apps/api/src/worker/webhook-delivery.worker.ts:22-45 | No two workers attempt the same delivery at once, for queued deliveries and test sends |
| `WebhookQueue.LeaseProtectsExactly` | apps/api/src/worker/webhook-delivery.worker.ts:8-9 | A second worker gets in, and both attempt, if and only if the lease is over when it looks |
| `WebhookQueue.RetryLetsAnotherIn` | apps/api/src/modules/webhooks/webhooks.service.ts:165-174 | A manual retry during an attempt lets a second worker in |
| `WebhookQueue.TerminalRowsStay` | apps/api/src/modules/webhooks/webhooks.service.ts:165-174 | Delivered rows never change, dead ones only by a manual retry |
| `WebhookQueue.EighthAttemptWaits` | apps/api/src/modules/webhooks/webhook-delivery.service.ts:14-24 | At most eight attempts are recorded, and the eighth starts at least 38550 seconds after the first ended |
| `WebhookQueue.StampRises` | apps/api/src/modules/webhooks/webhook-delivery.service.ts:93-164 | Every write to a row that stays pending raises (attempts, nextAttemptAt) lexicographically |
| `WebhookQueue.ClaimWinsIff` | apps/api/src/worker/webhook-delivery.worker.ts:35-39 | After any schedule, manual retries included, a claim on a pending row wins if and only if nothing was written since its poll, or, for a poll from before the last retry, it saw the very stamp the retry wrote and nothing was written since |
| `WebhookQueue.RetryReusesTheStamp` | apps/api/src/modules/webhooks/webhooks.service.ts:170-173 | A row polled in the millisecond it was queued and retried in the same one is claimed although it was written since the poll |
| `WebhookQueue.FailingDeliveryDies` | apps/api/src/modules/webhooks/webhook-delivery.service.ts:153-164 | With an endpoint that keeps failing, each retry happens when its backoff ends, and the eighth attempt buries the row at a computed time |
| `WebhookWorker.DeliveryTable.Claim` | apps/api/src/worker/webhook-delivery.worker.ts:35-39 | The conditional update wins exactly on an unchanged pending row and moves it behind the lease |
| `WebhookWorker.DeliveryTable.AttemptDelivery` | apps/api/src/modules/webhooks/webhook-delivery.service.ts:93-164 | The record of an attempt, case by case, and the endpoint switched off exactly when an active one answers 410 |
| `WebhookWorker.OrderDoesNotMatter` | apps/api/src/worker/webhook-delivery.worker.ts:30-44 | However the claims and records of a batch are mixed, each row ends as if its delivery were handled alone and every other row is left alone |
| `WebhookWorker.DeliveryTable.HandleDelivery` | apps/api/src/worker/webhook-delivery.worker.ts:34-42 | A delivery is attempted exactly when its claim wins, and its endpoint is switched off exactly when it then answers 410 |
| `WebhookWorker.DeliveryTable.ProcessDueDeliveries` | apps/api/src/worker/webhook-delivery.worker.ts:30-44 | Every polled row is claimed and handled once, at its own times, every other row is left alone, and exactly the endpoints of won deliveries that answer 410 are switched off |
| `WebhookWorker.SweepAttempts` | apps/api/src/worker/webhook-delivery.worker.ts:33-43 | A row polled and swept by a lone worker always gets an attempt: it ends delivered, dead or pending exactly as the outcome says |
| `JsText.BlankTrims` | apps/api/src/modules/imports/csv.ts:21 | Trimming leaves nothing exactly of a blank text, the test for rows that are dropped |
| `JsText.TrimKeeps` | apps/api/src/modules/imports/zendesk-mapper.ts:113-116 | Trimming cuts white space off both ends and nothing else |
| `JsText.SpaceCodes` | apps/api/src/modules/imports/csv.ts:21 | The characters that are trimmed, by code |
| `Csv.ParseCsv` | apps/api/src/modules/imports/csv.ts:6-59 | The index loop computes the state machine the theorems are about |
| `Csv.ParseKeepsOnly` | apps/api/src/modules/imports/csv.ts:19-23 | Returned rows have a second cell or a cell that is not blank |
| `Csv.ParseJoins` | apps/api/src/modules/imports/csv.ts:19-58 | parse(a + LF + b) = parse(a) followed by parse(b) whenever a parses and b does not open with a byte-order mark, also when a ends in CR |
| `CsvWriter.ScanCell` | apps/api/src/modules/imports/csv.ts:25-54 | Reading a printed cell, quoted or not, leaves exactly its text in the open field |
| `CsvWriter.ParsePrinted` | apps/api/src/modules/imports/csv.ts:6-59 | What any RFC 4180 writer's file parses to: its table without blank rows |
| `CsvWriter.RoundTrip` | apps/api/src/modules/imports/csv.ts:6-59 | Whatever the cells hold, whichever are quoted and whichever of LF, CRLF and CR ends each line, a table of kept rows comes back unchanged |
| `CsvWriter.QuotedRoundTrip` | apps/api/src/modules/imports/csv.ts:6-59 | On every table the fully quoted writer round-trips if and only if no row is blank |
| `CsvWriter.RewritingPreserves` | apps/api/src/modules/imports/csv.ts:6-59 | Any text that parses can be rewritten fully quoted without changing what it says |
| `ZendeskMapper.ColumnsIndex` | apps/api/src/modules/imports/zendesk-mapper.ts:87-91 | Every named column is found at its first occurrence, and nothing else is |
| `ZendeskMapper.IndexColumns` | apps/api/src/modules/imports/zendesk-mapper.ts:87-91 | The header loop computes that index |
| `ZendeskMapper.AcceptedAreFirsts` | apps/api/src/modules/imports/zendesk-mapper.ts:128-166 | Accepted rows are exactly the first fully valid rows of their ids, mapped, in file order |
| `ZendeskMapper.AcceptedOnce` | apps/api/src/modules/imports/zendesk-mapper.ts:133-154 | No id is accepted twice |
| `ZendeskMapper.ValidIdIsAccepted` | apps/api/src/modules/imports/zendesk-mapper.ts:128-166 | No id with a valid row is lost |
| `ZendeskMapper.MapBody` | apps/api/src/modules/imports/zendesk-mapper.ts:118-168 | The row loop computes accepted rows and problems; accepted plus errors equals the rows, and the first 100 errors are reported |
| `ZendeskMapper.ParseImportLater` | apps/api/src/modules/imports/zendesk-mapper.ts:128-168 | Reading the same file at another time accepts and rejects the same rows for the same reasons; only creation times the file does not give may differ |
| `ZendeskMapper.ParseZendeskCsv` | apps/api/src/modules/imports/zendesk-mapper.ts:76-169 | The whole file with its guards in order: totals add up, reported errors are min(errors, 100), ids are distinct |
| `ImportReading.CellIsNamed` | apps/api/src/modules/imports/zendesk-mapper.ts:28-43 | A column's cell is the trimmed cell under the first header that goes by one of its names |
| `ImportReading.ImportReadsItsCells` | apps/api/src/modules/imports/zendesk-mapper.ts:84-168 | In the file's own cells: when a table is taken, that every accepted ticket shows its line's cells field by field, cut and translated as stated, and that every row that says enough has its id accepted |
| `ExportRoundTrip.ExportIsReadBack` | apps/api/src/modules/imports/zendesk-mapper.ts:76-169 | An export of up to 5000 tickets, printed fully quoted, is read back as exactly those tickets, field by field and in order |
| `ImportsService.FindExistingExternalIds` | apps/api/src/modules/imports/imports.service.ts:27-37 | A row's id is known exactly when a ticket of the organization carries its tag |
| `ImportsService.SaveAllHas` | apps/api/src/modules/imports/imports.service.ts:122-131 | After saving, an id is present exactly when it was before or one of its rows was saved |
| `ExportRoundTrip.SavedInOrder` | apps/api/src/modules/imports/imports.service.ts:49-86 | Rows that do not fail are saved one ticket each, in order, under consecutive numbers, with their own fields, tags, resolution time and opening message |
| `ImportsService.OnlyStorableIsSaved` | apps/api/src/modules/imports/imports.service.ts:59-72 | A status or priority no column accepts is never stored |
| `ImportsService.ReimportFindsFailures` | apps/api/src/modules/imports/imports.service.ts:103-131 | Importing the same rows again finds missing exactly those whose save failed, in order |
| `ImportsService.ReimportOfFile` | apps/api/src/modules/imports/imports.service.ts:103-131 | Importing the same file again at any later time finds missing exactly the rows whose save failed, in order |
| `ImportsService.ReimportIsIdle` | apps/api/src/modules/imports/imports.service.ts:103-131 | After an import without failures, importing the same file again at any later time changes nothing |
| `ImportsService.ImportKeepsTidy` | apps/api/src/modules/imports/imports.service.ts:49-86 | Imports never create a second ticket for an id nor reuse a ticket number, whatever fails |
| `ImportsService.ImportStore.ImportRows` | apps/api/src/modules/imports/imports.service.ts:122-131 | created + failed covers every row, failed counts exactly the failing ones, reported errors stop at 100 |
| `ImportsService.ImportStore.ImportTickets` | apps/api/src/modules/imports/imports.service.ts:96-145 | created + failed = toCreate = valid - duplicates; a dry run or a refusal changes nothing; the in-flight mark is always released |
| `LoginOtp.StepKeepsBounded` | apps/api/src/modules/auth/auth.service.ts:501-523 | Every step keeps attempts, reservations and comparisons within the budget |
| `LoginOtp.StepKeepsSingleUse` | apps/api/src/modules/auth/auth.service.ts:548-564 | Every step keeps the challenge single-use, and a consumed challenge stays consumed |
| `LoginOtp.GuessesAreBounded` | apps/api/src/modules/auth/auth.service.ts:471-564 | Over every interleaving: comparisons <= maxAttempts * (1 + resends), attempts <= maxAttempts, at most one success |
| `LoginOtp.SuccessNeedsIssuedCode` | apps/api/src/modules/auth/auth.service.ts:525-564 | Whoever reaches the consuming step has had its own guess compared with, and equal to, a code issued for this challenge |
| `OtpCodes.GuessesTakeTime` | apps/api/src/modules/auth/auth.service.ts:400-445 | If no code is stored between a resend's read and its write, codes are stored a cooldown apart, and comparisons <= maxAttempts * (1 + elapsed / cooldown) |
| `OtpCodes.NextCodeTooSoonIff` | apps/api/src/modules/auth/auth.service.ts:383-445 | After a code is stored, some schedule stores another before the cooldown is over if and only if another resend was between its read and its write |
| `OtpCodes.TwoResendsAtOnce` | apps/api/src/modules/auth/auth.service.ts:383-445 | Two resends that both read before either writes are both granted, with no time between them |
| `OtpCodes.AcceptedIsCurrentIff` | apps/api/src/modules/auth/auth.service.ts:475-564 | A call succeeds with the code stored when it read the row: with distinct codes the current one if and only if no code was stored since |
| `OtpCodes.NobodyActsOnAnExpiredCode` | apps/api/src/modules/auth/auth.service.ts:390-398 | Over every schedule, whoever is about to consume the challenge or to store a new code read the row within the lifetime of the code it then held |
| `LoginOtp.VerifyAloneIsARun` | apps/api/src/modules/auth/auth.service.ts:471-564 | An uninterrupted verify call is one of the schedules: it compares and succeeds exactly when stated, and spends one attempt when it compares |
| `LoginOtp.ResendAloneIsARun` | apps/api/src/modules/auth/auth.service.ts:380-445 | An uninterrupted resend is one of the schedules: granted when open, unexpired and past the cooldown, and then code, attempts, expiry and time are renewed |
| `LoginOtp.ChallengeRow.ReserveGuess` | apps/api/src/modules/auth/auth.service.ts:503-523 | Reserves exactly while unconsumed and under the limit |
| `LoginOtp.ChallengeRow.ConsumeOnce` | apps/api/src/modules/auth/auth.service.ts:549-564 | Succeeds once |
| `LoginOtp.ChallengeRow.VerifyLoginOtp` | apps/api/src/modules/auth/auth.service.ts:471-564 | Alone, a verify call succeeds exactly for the current code of an unconsumed, unexpired challenge with guesses left and an active user; each comparison costs an attempt, and a closed challenge is left as it is |
| `LoginOtp.ChallengeRow.ResendLoginOtp` | apps/api/src/modules/auth/auth.service.ts:380-445 | A resend is granted exactly when unconsumed, unexpired, past the cooldown and active, and renews code, attempts and expiry |
| `AutomationEngine.NegativesAreOpposite` | apps/api/src/modules/automations/automation-engine.service.ts:62-96 | Each negative operator is the exact opposite of its positive one on single texts, and "not equals" on lists too |
| `AutomationEngine.ComparesNumbers` | apps/api/src/modules/automations/automation-engine.service.ts:62-68 | "gt" and "lt" compare numbers strictly, are false without two of them, and take a list for its length |
| `AutomationEngine.SplitsAtCommas` | apps/api/src/modules/automations/automation-engine.service.ts:91-92 | The list of an "in" condition is the text between its commas |
| `AutomationEngine.InMeans` | apps/api/src/modules/automations/automation-engine.service.ts:91-92 | "in" holds when a trimmed part of the folded list is the folded text |
| `AutomationEngine.DomainFollowsAt` | apps/api/src/modules/automations/automation-engine.service.ts:118-121 | An address's domain is what follows its @; a text without one has none |
| `AutomationEngine.EqualsReadsItsField` | apps/api/src/modules/automations/automation-engine.service.ts:98-136 | Which field of the ticket each condition reads |
| `AutomationEngine.EqualsReadsItsPart` | apps/api/src/modules/automations/automation-engine.service.ts:98-136 | Which part of the context each condition reads, and what an absent part reads as |
| `AutomationEngine.FullContextShows` | apps/api/src/modules/automations/automation-engine.service.ts:309-334 | The customer's tags, flag and address and whether business is open, as stored |
| `AutomationEngine.ListContainsGap` | apps/api/src/modules/automations/automation-engine.service.ts:69-80 | On a list, for texts without line feeds, "contains" and "not contains" both fail if and only if some entry contains the text and none equals it, or list and folded text are empty; they never both hold |
| `AutomationEngine.VipGoldIsNeither` | apps/api/src/modules/automations/automation-engine.service.ts:69-80 | The tag "vip-gold" matches neither "contains vip" nor "not contains vip" |
| `AutomationEngine.LazyReadsTheSame` | apps/api/src/modules/automations/automation-engine.service.ts:309-334 | A condition reads the same under a lazily built context that was asked for it as under everything loaded |
| `AutomationEngine.SimulationAgrees` | apps/api/src/modules/automations/automation-engine.service.ts:336-384 | A rule's verdict in a run equals its verdict in a simulation and under the full context |
| `AutomationEngine.FiredExactly` | apps/api/src/modules/automations/automation-engine.service.ts:347-361 | The rules that fire are exactly the matching ones up to and including the first that stops, in position order |
| `AutomationRuns.TagActions` | apps/api/src/modules/automations/automation-engine.service.ts:195-255 | Adding and removing tags are idempotent, undo each other on absent tags, touch no other tag and create no repeats |
| `AutomationRuns.FieldActions` | apps/api/src/modules/automations/automation-engine.service.ts:178-259 | Every other action writes only its own field, and only values of the lists, known teams and active users |
| `AutomationRuns.AssignmentTakesEffect` | apps/api/src/modules/automations/automation-engine.service.ts:206-230 | An assignment takes effect if and only if it differs from the assignee the run began with, or that one still holds the ticket |
| `AutomationRuns.HandingBackIsLost` | apps/api/src/modules/automations/automation-engine.service.ts:215-218 | Moving a ticket to b and back to its first assignee leaves it with b |
| `AutomationRuns.PickLeastLoadedAgent` | apps/api/src/modules/automations/automation-engine.service.ts:143-167 | The first agent, in order, with the least open tickets; none only when there is no agent |
| `AutomationRuns.TicketStore.ApplyActions` | apps/api/src/modules/automations/automation-engine.service.ts:169-304 | The action loop computes the composition of the actions whose database calls do not throw; a failing one stops nothing |
| `AutomationRuns.TicketStore.Run` | apps/api/src/modules/automations/automation-engine.service.ts:337-362 | The ticket and the log after a run, whatever actions fail, by the reached rules alone, all judged on the ticket as it was before any action |
| `AutomationRuns.Simulate` | apps/api/src/modules/automations/automation-engine.service.ts:368-384 | The dry run reports each condition's verdict under the full context and the actions exactly when all hold |
| `AiReply.AnsweredMeansNoHandoff` | apps/api/src/modules/assistant/assistant.service.ts:38-60 | The AI answers by itself exactly a grounded, harmless, paid-for question that needs no person; every other decision hands over |
| `AiReply.DecisionTable` | apps/api/src/modules/widget/ai-reply.service.ts:147-204 | The stored decision in every case, and that all but an answer hand over |
| `AiReply.UnansweredCounts` | apps/api/src/modules/widget/ai-reply.service.ts:136-139 | The unsuccessful replies are the AI messages whose decision is not "answered" |
| `AiReply.OneReplyPerMessage` | apps/api/src/modules/widget/ai-reply.service.ts:206-225 | Under every schedule message keys stay unique, so a customer message gets at most one AI reply; stored messages are only appended to |
| `AiReplyRate.StepKeepsRate` | apps/api/src/modules/widget/ai-reply.service.ts:132-134 | With at most p overlapping runs, every step keeps recent replies plus thinking runs, and every ten-minute window, within 5 + p |
| `AiReplyRate.RateIsBounded` | apps/api/src/modules/widget/ai-reply.service.ts:127-225 | Over every schedule with at most p overlapping runs, every ten-minute window holds at most 5 + p AI replies: six when runs are serialised |
| `AiReplyRate.RateBoundIsReached` | apps/api/src/modules/widget/ai-reply.service.ts:127-225 | For every p a schedule with at most p overlapping runs leaves exactly 5 + p AI replies in the window |
| `AiReplyRate.FreshTicketKeepsRate` | apps/api/src/modules/widget/ai-reply.service.ts:107-139 | A ticket without AI messages meets the rate invariant |
| `AiReplyHandoff.StepKeepsHandoff` | apps/api/src/modules/widget/ai-reply.service.ts:83-89 | Every step keeps the link between a handing-over reply, its pending tag and the tag |
| `AiReplyHandoff.HandoffSticks` | apps/api/src/modules/widget/ai-reply.service.ts:127-241 | While runs are serialised, reach their tag, and nobody takes it off: at most one AI reply hands over, no AI reply follows it, and the repeat decision is never reached |
| `AiReplyHandoff.HandoffBreaksIff` | apps/api/src/modules/widget/ai-reply.service.ts:127-241 | Once an AI reply has handed over, some schedule without an edit, whatever runs overlap, wait or die in it, lets another AI reply follow if and only if the guards other than the rate are open or a run that passed them has yet to post |
| `AiReplyHandoff.AnotherReplyIff` | apps/api/src/modules/widget/ai-reply.service.ts:127-225 | A run that reads and posts in one go gets such a reply in if and only if the ticket passes all guards at that moment, for every message and answer and whatever other runs are alive |
| `AiReplyHandoff.OverlapBreaksHandoff` | apps/api/src/modules/widget/widget.controller.ts:103-107 | A run that read before another's handoff posts after it: the tag is set, the guards are shut, and nobody died or edited |
| `AiReplyHandoff.DeathReopensIff` | apps/api/src/modules/widget/ai-reply.service.ts:206-228 | After a death between reply and tag, a message handled at any later time gets another AI reply if and only if the rate guard has room at that time |
| `AiReplyHandoff.EditReopensIff` | apps/api/src/modules/widget/ai-reply.service.ts:83-89 | After a complete handoff and an edit of the ticket, a message handled at any later time gets another AI reply if and only if the edit leaves it open, on autopilot and without the tag, and the rate guard has room at that time |
| `AiReplyHandoff.RerunNeverTags` | apps/api/src/modules/widget/ai-reply.service.ts:206-228 | A retry of the message whose run died finds its reply stored, changes nothing and never sets the tag |
| `AiReplyHandoff.HandoffWritesTagsBack` | apps/api/src/modules/widget/ai-reply.service.ts:83-89 | The handoff writes back the tags its run read: another tag is on the ticket afterwards if and only if it was there then |
| `AiReplyHandoff.TagAddedMeanwhileIsLost` | apps/api/src/modules/widget/ai-reply.service.ts:83-89 | A tag added between a run's read and its handoff is lost |
| `AiReplyHandoff.FreshTicket` | apps/api/src/modules/widget/ai-reply.service.ts:107-139 | A ticket without AI messages meets the handoff invariants |
| `AiReplyService.Thread.RecentAi` | apps/api/src/modules/widget/ai-reply.service.ts:132-133 | Counts the AI replies of the last ten minutes |
| `AiReplyService.Thread.HandleCustomerMessage` | apps/api/src/modules/widget/ai-reply.service.ts:107-264 | Uninterrupted handling of a message is the run's three steps; which guard skips it, in order, and otherwise the one stored reply, its key and decision, and the handoff tag |
| `PyText.StripIsTight` | apps/ai-service/app/services/suggest_reply.py:461 | Stripping leaves no outer white space and changes exactly the texts that had some |
| `PyText.StripKeeps` | apps/ai-service/app/services/suggest_reply.py:461 | Stripping cuts white space off both ends and nothing else |
| `PyText.SpaceCodes` | apps/ai-service/app/services/suggest_reply.py:577-583 | The characters that are white space and those that break lines, by code |
| `PyText.SplitCuts` | apps/ai-service/app/services/suggest_reply.py:577 | A line ends at its break; CR LF is one break, every other break one character |
| `PyText.JoinUndoesSplit` | apps/ai-service/app/services/suggest_reply.py:577-621 | Joining the lines of a text gives it back when LF is its only line break and not its last character |
| `ReplySanitizer.StripKbLines` | apps/ai-service/app/services/suggest_reply.py:577-617 | The line loop keeps exactly the specified lines |
| `ReplySanitizer.StripKbLeakage` | apps/ai-service/app/services/suggest_reply.py:563-629 | The whole filter computes the specified text |
| `ReplySanitizer.KeepIsPublic` | apps/ai-service/app/services/suggest_reply.py:582-617 | The nonblank lines the loop keeps are those before the first heading that are neither title nor metadata |
| `ReplySanitizer.CleanSaysThePublicPart` | apps/ai-service/app/services/suggest_reply.py:563-629 | The nonblank lines of the cleaned text are exactly the nonblank input lines before the first heading that are neither title nor metadata, in order, up to outer white space |
| `ReplySanitizer.NothingLeaks` | apps/ai-service/app/services/suggest_reply.py:563-629 | No line of the cleaned text is a heading, a title or metadata |
| `ReplySanitizer.NothingElseIsLost` | apps/ai-service/app/services/suggest_reply.py:563-629 | Every nonblank line before the first heading that is neither title nor metadata stays |
| `ReplySanitizer.NonblankMeans` | apps/ai-service/app/services/suggest_reply.py:582-588 | The nonblank lines are the stripped lines that are not empty |
| `ReplySanitizer.CleanIsTight` | apps/ai-service/app/services/suggest_reply.py:619-629 | The cleaned text has no outer white space and no run of three line feeds; the last strip never does anything |
| `ReplySanitizer.CleanHasNoGaps` | apps/ai-service/app/services/suggest_reply.py:623-627 | A cleaned text holds no three line feeds in a row |
| `ReplySanitizer.CleanOnlyStrips` | apps/ai-service/app/services/suggest_reply.py:619-629 | Kept lines without such a gap are only joined and stripped |
| `ReplySanitizer.CleanTwice` | apps/ai-service/app/services/suggest_reply.py:563-629 | Cleaning is idempotent |
| `ReplyLength.CutIsEllipsis` | apps/ai-service/app/services/suggest_reply.py:471-475 | Stripping punctuation off the joined words and adding an ellipsis changes the last word only |
| `ReplyLength.StripPunctuationKeeps` | apps/ai-service/app/services/suggest_reply.py:471-473 | Exactly the trailing full stops, commas, semicolons and colons go |
| `ReplyLength.CutEndsInDots` | apps/ai-service/app/services/suggest_reply.py:468-475 | A cut reply keeps the first 119 words and ends in the 120th without that punctuation, and three dots |
| `ReplyLength.LimitKeepsTheFirstWords` | apps/ai-service/app/services/suggest_reply.py:454-475 | At most 120 words: a short text only loses outer white space, a long one keeps its first 119 words and ends in its 120th with an ellipsis |
| `ReplyLength.LimitTwice` | apps/ai-service/app/services/suggest_reply.py:454-475 | Limiting is idempotent |

## Left out

- BusinessHours.AddIsEarliest: times are local wall-clock times; the conversions to and from a time zone belong to a library and daylight saving is not part of this model. Holidays are day numbers instead of date strings.
- Metering.NeverOverbilled: Stripe is a set of identifiers it never forgets; its finite deduplication window is not modelled. Plan limits are fixed for the run, so a plan change in the middle of a month is not covered.
- SubscriptionEvents.NewestWins: handling is serialised, event times are distinct and the newest status is definite; `SubscriptionEvents.TwoEventsCommute` and `SubscriptionRaces.CommitGoesBackIff` say what happens otherwise. A period end of zero seconds counts as absent, as in the code.
- SubscriptionRaces.TogetherIsSerial: follows the reads and writes of the subscription and organization rows; the marks of processed events are in `SubscriptionEvents`.
- WebhookQueue.NeverTwoAttempts: attempts end inside their lease and no manual retry runs during an attempt; `WebhookQueue.LeaseProtectsExactly` and `WebhookQueue.RetryLetsAnotherIn` show that both are needed.
- WebhookWorker.DeliveryTable.ProcessDueDeliveries: the attempts of a chunk follow each other in the method; `WebhookWorker.OrderDoesNotMatter` covers their mixing, and `WebhookQueue` other workers.
- AiReplyRate.RateIsBounded: the clock does not go back.
- AiReplyHandoff.HandoffSticks: runs of one ticket are serialised, nobody takes the handoff tag off and no run dies between its reply and its tag; `AiReplyHandoff.HandoffBreaksIff` says exactly when another AI reply can follow without an edit, whatever runs overlap or die.
- AutomationEngine.ListContainsGap: case folding works line by line; it may change the number of characters.
- LoginOtp.GuessesAreBounded: follows one challenge; consuming a user's other challenges appears only as a step that consumes this one.
- AutomationRuns.TicketStore.Run: an action that fails does so before it writes. Nobody else writes to the ticket during the run, the run log can be written, and the least-loaded choice is a parameter whose loop is `AutomationRuns.PickLeastLoadedAgent`.
- ReplySanitizer.CleanTwice: the heading, title and metadata patterns are arbitrary predicates on the stripped line.
- CsvWriter.RoundTrip: characters are code points here and UTF-16 units in the program; no character the parser treats specially needs two units.
- ImportsService.ImportStore.ImportTickets: the guard against parallel imports lives in one process, as in the code; two processes importing the same organization at once are not covered.
- Finding the organization, ticket, message, user or subscription of a request, authentication, audit records, notifications, sockets, Kafka and mail: input and output around the modelled decisions.
- `flushPending`'s query, the availability query behind `tryConsume`, and the order and size of a polled webhook batch: they choose which rows are handled, not what happens to them. The retention sweep and the timer flags of the worker as well.
- Payloads, signatures, HTTP and URL checks of a delivery: an attempt is its outcome.
- Hashing and generation of codes, trusted devices and tokens: a code is the number its hash stands for.
- Case folding, e-mail and date validation, number syntax and printing: parameters of the mapper and of the rule engine.
- ExportRoundTrip.ExportIsReadBack: the folding of the eight headers and of the status and priority words to lower case is assumed of the platform.
- Counting new customers, creating customers and the wording of error messages in an import.
- Severity assessment, intent detection, entitlement and AI calls of a reply: one run receives their results as parameters. Escalation happens before the modelled guards and does not influence them.
- A run of the reply pipeline reads the organization, the ticket and its messages one after the other; the model reads them in one step.
- Code fences around a generated reply, retrieval, prompts and the reply cache.
- Default SLA policies and the merging of partial ones: easy record updates.
