# Columbia compliance portal: verified model of the rule sets

The Columbia compliance portal is an administration tool for vendor insurance
compliance. It stores vendors, their insurance certificates and the
certificate requests sent to their brokers. A scheduler sends e-mail alerts.
Webhooks from the Brokermatic broker service update the stored records.
Several pages list, count and classify certificates.

This project is a model, in Dafny, of the rule sets underneath that tool:

- **Notification scheduler.** Four passes run in order: certificates about to
  expire, certificates that have just expired, vendors that became
  non-compliant, and certificate requests left pending. Each pass selects
  records by day thresholds. It e-mails each selected record through a mailer
  that may refuse. Only after an accepted e-mail does it stamp `notifiedDate`
  or a status.
- **Mock compliance check** of the Smart COI client, and the Columbia
  requirement set it is fed.
- **Webhooks.** The Brokermatic webhook changes requests and vendors per event
  type. The older generic webhook bulk-updates certificates.
- **Date rules.** Day counts use the ceiling of a millisecond difference over
  86 400 000. The page badges, row colours and nested 30/60/90-day count
  buckets follow from them.
- **Query-string, pagination and navigation rules** of the vendors page, the
  table header cells, the compliance filter bar and the navigation bar.
- **Text outputs.** The four HTML e-mail templates and the CSV export. Neither
  escapes what it interpolates.

The database is the class `Records.Database`. Its three tables are `seq`
fields, and the passes and handlers rewrite them in place under `modifies db`.
Each state-changing method is proved against a pure specification function of
the old tables (`ExpiringPass`, `ExpiredVendors`, `EditRequests`,
`UpdateMany`, …). The properties the portal promises are lemmas about those
functions.

Time is an integer count of milliseconds and comes in as a parameter `now`.
A run of all notification passes takes one such reading per pass (`Instants`),
as each pass calls `new Date()` for itself.
The mailer comes in as an oracle `send: Email -> bool`. Locale date formatting,
`localeCompare` and URL percent-encoding are function parameters. Environment
variables are `Option<string>` parameters.

Modules follow the source files:

- `NotificationService` and `NotificationProperties` model
  `src/lib/email/notification-service.ts`.
- `SmartCoiClient` models `src/lib/brokermatic/smart-coi-client.ts`.
- `InsuranceRequirements` models `src/lib/insurance-requirements.ts`.
- `BrokermaticWebhook` models `src/app/api/webhooks/brokermatic/route.ts`.
- `LegacyWebhook` models `src/app/api/webhooks/route.ts`.
- `CompliancePage` models `src/app/compliance/page.tsx`.
- `ExpiringPage` models `src/app/compliance/expiring/page.tsx`.
- `Dashboard` models `src/app/page.tsx`.
- `VendorsPage` models `src/app/vendors/page.tsx`.
- `Templates` models `src/lib/email/templates.ts`.
- `ExportCompliance` models `src/components/ExportComplianceButton.tsx`.
- `FilterableTableHeaderCell`, `TableHeaderCell`, `ComplianceFilters` and
  `NavBar` model the components of the same names.

Shared vocabulary lives in separate modules:

- `Common` holds optional values and JavaScript truthiness.
- `Text` holds `trim`, `split`, `join`, `split(/\s+/)`, `toUpperCase` and
  number printing.
- `Dates` holds the ceiling and floor day counts.
- `Buckets` holds the count filters.
- `QueryParams` is `URLSearchParams`: an ordered list of pairs and a class
  that mutates it.
- `SortControls` holds the sort toggling shared by both header cells.
- `Records` holds the stored records and the database class.

## Model

| member | source | states |
|---|---|---|
| NotificationService.BaseUrl | src/lib/email/notification-service.ts:16 | the base of every link is `NEXT_PUBLIC_APP_URL` when it is non-empty, otherwise the localhost default |
| NotificationService.Recipients | src/lib/email/notification-service.ts:365-374 | an unset variable gives the two default addresses; a set one gives, piece by piece and in order, the trimmed comma-separated pieces, so the list is never empty |
| NotificationService.RecipientsCount | src/lib/email/notification-service.ts:366 | a set variable yields one address more than it has commas |
| NotificationService.RecipientsOfEmptyVariable | src/lib/email/notification-service.ts:366-373 | an empty but set variable yields the single empty address, not the defaults |
| NotificationService.RecipientsOfTrimmedPieces | src/lib/email/notification-service.ts:366 | when every comma-separated piece is already trimmed, the recipients are exactly those pieces |
| NotificationService.RecipientsRoundTrip | src/lib/email/notification-service.ts:365-374 | joining trimmed, comma-free addresses with commas and reading the variable back gives the same addresses |
| NotificationService.ExpiringPass | src/lib/email/notification-service.ts:54-98 | the specification of the expiring pass: each certificate is handled on its own and keeps its id and vendor |
| NotificationService.ExpiredPass | src/lib/email/notification-service.ts:123-179 | the specification of the expired pass on certificates: each certificate is handled on its own and keeps its id and vendor |
| NotificationService.ExpiredVendors | src/lib/email/notification-service.ts:171-175 | the specification of the expired pass on vendors: the vendor table keeps its ids, in order |
| NotificationService.NotifyExpiring | src/lib/email/notification-service.ts:62-97 | one loop step of the expiring pass: the certificate table advances by one element of the specification and the message list grows by that element's notice; vendors and requests are untouched |
| NotificationService.CheckExpiringCertificates | src/lib/email/notification-service.ts:21-101 | the certificate table becomes `ExpiringPass` of the old one and the messages are `ExpiringNotices`; vendors and requests are unchanged and the tables stay linked |
| NotificationService.ExpireCertificate | src/lib/email/notification-service.ts:138-177 | one certificate of the expired pass: on an accepted e-mail it is marked expired and stamped, and its vendor is marked expired; on a refused e-mail nothing changes |
| NotificationService.ExpireNext | src/lib/email/notification-service.ts:123-179 | one loop step of the expired pass: certificates, vendors and messages advance by one element of their specifications |
| NotificationService.CheckExpiredCertificates | src/lib/email/notification-service.ts:106-182 | certificates become `ExpiredPass`, vendors become `ExpiredVendors` and the messages are `ExpiredNotices`, all of the old tables; requests are unchanged |
| NotificationService.LatestNonCompliantRequest | src/lib/email/notification-service.ts:194-212 | the request chosen for a vendor exists iff the vendor has a non-compliant request; it is one of them and none of them was created later |
| NotificationService.ComplianceGaps | src/lib/email/notification-service.ts:219-242 | the gap list is never empty: without coverage results it is the generic line; otherwise it is the per-coverage lines, or the generic line when there are none |
| NotificationService.GapLinesAppend | src/lib/email/notification-service.ts:226-238 | the gap lines of two coverage lists are the lines of the first followed by the lines of the second, so input order is kept |
| NotificationService.CoverageLinesReported | src/lib/email/notification-service.ts:226-238 | every line a single coverage contributes appears in the gap list |
| NotificationService.MissingCoverageReported | src/lib/email/notification-service.ts:228-229 | a coverage that was not found yields its "Missing required coverage" line, with the underscores of its type replaced by spaces |
| NotificationService.LimitGapReported | src/lib/email/notification-service.ts:230-236 | each limit gap of a found coverage whose limits fail yields its "is insufficient" line |
| NotificationService.GapLinesFromCoverages | src/lib/email/notification-service.ts:226-238 | every gap line comes from some coverage, so nothing else is reported |
| NotificationService.AllPassingGivesGenericGap | src/lib/email/notification-service.ts:240-242 | when every coverage is found and passes its limits, the list is the single generic line |
| NotificationService.BuildGaps | src/lib/email/notification-service.ts:219-242 | the `forEach`/`push` loop builds exactly `ComplianceGaps` of the stored result |
| NotificationService.CheckNonCompliantCertificates | src/lib/email/notification-service.ts:187-263 | the messages are `NonCompliantNotices` of the tables, and the pass writes no record |
| NotificationService.RemindPending | src/lib/email/notification-service.ts:296-324 | one loop step of the reminder pass extends the message list by that request's notice |
| NotificationService.CheckPendingRequests | src/lib/email/notification-service.ts:268-332 | the messages are `PendingNotices` of the tables, and the pass writes no record |
| NotificationService.RunNotificationChecks | src/lib/email/notification-service.ts:337-360 | the passes run in the order expiring, expired, non-compliant, pending, each on the tables the previous one left and each at its own reading of the clock; the total is the sum of the four list lengths |
| NotificationProperties.ExpiringSchedule | src/lib/email/notification-service.ts:57-68 | a selected certificate is 0 to 90 ceil days away and is e-mailed iff that count is 90, 60 or at most 30; 31–59 and 61–89 are skipped |
| NotificationProperties.ExpiringWindowInDays | src/lib/email/notification-service.ts:30-39 | with the debounce satisfied, a certificate is selected iff it has not expired and is at most 90 ceil days away |
| NotificationProperties.ExpiringDebounce | src/lib/email/notification-service.ts:89-97 | the pass changes a certificate only after an accepted e-mail, and then only sets `notifiedDate := now`; the stamped certificate is not selected again within seven days |
| NotificationProperties.Changed | src/lib/email/notification-service.ts:89-97 | the number of positions where two tables differ is at most their length |
| NotificationProperties.ExpiringPassPrefix | src/lib/email/notification-service.ts:54-98 | the pass treats each certificate on its own: its result on a prefix is the prefix of its result |
| NotificationProperties.ExpiringChangeOne | src/lib/email/notification-service.ts:89-97 | one certificate changes iff its e-mail was accepted, and it then yields exactly one message, otherwise none |
| NotificationProperties.ExpiringNoticePerUpdate | src/lib/email/notification-service.ts:89-97 | the expiring pass yields exactly as many messages as certificates it changed |
| NotificationProperties.ExpiredDaysOverdueIsOne | src/lib/email/notification-service.ts:112-140 | a certificate the expired pass selects expired less than a day ago, so its e-mail reports one day overdue |
| NotificationProperties.ExpiredRerunSkips | src/lib/email/notification-service.ts:112-177 | on an accepted e-mail the certificate becomes exactly its old record with status `expired` and `notifiedDate := now`, and no later run selects it again; on a refused e-mail it is unchanged |
| NotificationProperties.ExpiredPassPrefix | src/lib/email/notification-service.ts:123-179 | the expired pass treats each certificate on its own: its result on a prefix is the prefix of its result |
| NotificationProperties.ExpiredChangeOne | src/lib/email/notification-service.ts:161-177 | one certificate changes iff its e-mail was accepted, and it then yields exactly one message, otherwise none |
| NotificationProperties.ExpiredNoticePerUpdate | src/lib/email/notification-service.ts:161-177 | the expired pass yields exactly as many messages as certificates it marked |
| NotificationProperties.ExpiredVendorIdsExact | src/lib/email/notification-service.ts:171-175 | a vendor is marked expired iff one of its certificates was e-mailed successfully by the expired pass |
| NotificationProperties.ExpiredVendorsMarked | src/lib/email/notification-service.ts:171-200 | a marked vendor changes only in `insuranceStatus := expired`, which the non-compliance pass then skips; an unmarked vendor is unchanged |
| NotificationProperties.ExpiringExpiredDisjoint | src/lib/email/notification-service.ts:30-121 | no certificate is selected by both certificate passes at the same instant |
| NotificationProperties.ExpiredAfterExpiring | src/lib/email/notification-service.ts:337-345 | running the expiring pass first, at any instant, does not change the messages or the vendor marks of the expired pass |
| NotificationProperties.BothNoticesInOneRun | src/lib/email/notification-service.ts:337-345 | because each pass reads its own clock, a certificate expiring at the expiring pass's instant gets both its expiring notice and its expiration alert in one run when the expired pass reads the clock later the same day |
| NotificationProperties.PendingAtLeastSevenDays | src/lib/email/notification-service.ts:276-305 | a selected request has been pending at least seven ceil days |
| NotificationProperties.PendingWeekly | src/lib/email/notification-service.ts:276-305 | a selected request is still selected later and is older by the elapsed days, so a reminder due today is due again exactly on multiples of seven days |
| NotificationProperties.NonCompliantSkipped | src/lib/email/notification-service.ts:194-220 | a vendor with no non-compliant request, or whose latest one holds no stored result, is never e-mailed |
| SmartCoiClient.NewClient | src/lib/brokermatic/smart-coi-client.ts:178-182 | mock mode is on iff the key argument is absent, empty or `mock_api_key`, whatever the environment; the key and URL fall back to the environment and then to the defaults |
| SmartCoiClient.SingletonIsMocked | src/lib/brokermatic/smart-coi-client.ts:530 | the exported client, built without arguments, is always mocked, even with an environment key set, which it still records |
| SmartCoiClient.MockIgnoresEnvironment | src/lib/brokermatic/smart-coi-client.ts:178-182 | the mock decision does not depend on the environment variables |
| SmartCoiClient.NumberOr | src/lib/brokermatic/smart-coi-client.ts:386-404 | a present non-zero minimum is used; an absent or zero one gives the default |
| SmartCoiClient.GlCheck | src/lib/brokermatic/smart-coi-client.ts:379-409 | the general liability result passes, checks exactly the two limits and two flags, and records the minimums (defaults 1,000,000 and 2,000,000) and the flags (default false) as required |
| SmartCoiClient.WcCheck | src/lib/brokermatic/smart-coi-client.ts:411-424 | the workers' compensation result passes and checks only the waiver flag, default false |
| SmartCoiClient.AutoCheck | src/lib/brokermatic/smart-coi-client.ts:426-439 | the auto result passes and checks only the combined single limit, default 1,000,000 |
| SmartCoiClient.MockResults | src/lib/brokermatic/smart-coi-client.ts:379-439 | the results hold the GL, WC and auto keys exactly when each is required, never umbrella, and every result and every check in it passes |
| SmartCoiClient.Verdict | src/lib/brokermatic/smart-coi-client.ts:441-443 | the verdict is compliant iff every result passes, including when there is none |
| SmartCoiClient.MockCheckResult | src/lib/brokermatic/smart-coi-client.ts:441-447 | the response echoes the certificate id, is stamped `now`, and carries the mock results |
| SmartCoiClient.MockAlwaysCompliant | src/lib/brokermatic/smart-coi-client.ts:375-449 | the mock check is compliant for every request |
| SmartCoiClient.MockComplianceCheck | src/lib/brokermatic/smart-coi-client.ts:375-449 | the method that fills the result dictionary key by key returns exactly `MockCheckResult` |
| SmartCoiClient.MockDaysUntilExpiration | src/lib/brokermatic/smart-coi-client.ts:291 | the day count is the floor of the milliseconds left until the next year starts |
| SmartCoiClient.MockDaysUseFloor | src/lib/brokermatic/smart-coi-client.ts:291 | that count equals the page's ceil count on whole days and is one less otherwise |
| SmartCoiClient.MockCertificate | src/lib/brokermatic/smart-coi-client.ts:287-300 | the mock certificate is active and compliant, runs from this year's start to the next year's, and carries the floor day count |
| SmartCoiClient.MockRequest | src/lib/brokermatic/smart-coi-client.ts:212-285 | the request method defaults to GET; `POST /compliance/requirements` answers `pending`, `POST /compliance/check` answers the mock check, `GET /certificates…` answers a document iff the path has `/document`, `POST /webhooks` throws iff it has no body and otherwise answers an `active` subscription, `GET /holders/…` answers the Columbia holder summary, and any method other than GET and POST throws "Mock endpoint not implemented" |
| InsuranceRequirements.ColumbiaComplianceRequirements | src/lib/insurance-requirements.ts:71-106 | the holder id is constant, the deadline and insured name are unset, and the description defaults; GL and WC are required, auto is not, and umbrella is present but not required |
| InsuranceRequirements.RequirementsMatchLimitTable | src/lib/insurance-requirements.ts:77-153 | the GL minimums and the required flags match the minimum-limits table |
| InsuranceRequirements.RequiredCoveragesAgree | src/lib/insurance-requirements.ts:77-114 | a coverage is in `COLUMBIA_REQUIRED_COVERAGES` iff the requirement set requires it |
| InsuranceRequirements.ColumbiaMockCheck | src/lib/insurance-requirements.ts:71-106 | the mock check of the Columbia requirements yields exactly the GL and WC results, with the Columbia minimums as required limits, and is compliant |
| BrokermaticWebhook.WebhookSecret | src/app/api/webhooks/brokermatic/route.ts:294 | the secret is `BROKERMATIC_WEBHOOK_SECRET` when it is non-empty, otherwise the mock secret |
| BrokermaticWebhook.Edited | src/app/api/webhooks/brokermatic/route.ts:116-150 | an edited request keeps its id, vendor, Brokermatic id and dates; it becomes non-compliant only on a gap event and always holds a result |
| BrokermaticWebhook.EditRequests | src/app/api/webhooks/brokermatic/route.ts:116-135 | exactly the requests whose stored certificate id matches are edited, every other request is kept, and owners do not change |
| BrokermaticWebhook.MatchedVendorIdsExact | src/app/api/webhooks/brokermatic/route.ts:116-125 | a vendor id is collected iff one of its requests holds the certificate |
| BrokermaticWebhook.VendorsAfter | src/app/api/webhooks/brokermatic/route.ts:141-150 | the vendor table keeps its ids, and without a patch it is unchanged |
| BrokermaticWebhook.EditMatchingRequest | src/app/api/webhooks/brokermatic/route.ts:128-150 | one loop step: the request is replaced by its edited form iff it matches, and its vendor is patched iff it matches and there is a patch; certificates are untouched |
| BrokermaticWebhook.UpdateStep | src/app/api/webhooks/brokermatic/route.ts:128-150 | one loop step keeps the requests and vendors equal to their specifications on the prefix handled so far |
| BrokermaticWebhook.UpdateMatchingRequests | src/app/api/webhooks/brokermatic/route.ts:107-151 | after the loop the requests are `EditRequests` and the vendors `VendorsAfter` of the old tables; certificates are unchanged and the tables stay linked |
| BrokermaticWebhook.EditKeepsLinks | src/app/api/webhooks/brokermatic/route.ts:107-151 | editing matching requests and patching their vendors keeps every request linked to a vendor |
| BrokermaticWebhook.FirstWithRequestId | src/app/api/webhooks/brokermatic/route.ts:58-60 | `findFirst` returns the first request carrying the id, or nothing when none does |
| BrokermaticWebhook.HandleCertificateIssued | src/app/api/webhooks/brokermatic/route.ts:45-102 | the tables become `AfterIssued` of the old tables and stay linked |
| BrokermaticWebhook.Post | src/app/api/webhooks/brokermatic/route.ts:286-354 | the response and the new tables are `Outcome` of the old ones: signature gate, event dispatch, and the catch that still answers |
| BrokermaticWebhook.ResponseByGate | src/app/api/webhooks/brokermatic/route.ts:293-353 | the response is 401 iff a present signature fails verification, and then nothing changes; otherwise it is 200 with `received: true`, even when a handler throws; a missing signature is never rejected |
| BrokermaticWebhook.UnknownEventChangesNothing | src/app/api/webhooks/brokermatic/route.ts:310-339 | an event outside the switch throws nothing and changes nothing |
| BrokermaticWebhook.EventKeepsCertificatesAndLinks | src/app/api/webhooks/brokermatic/route.ts:310-339 | no event writes a certificate, and every event keeps the tables linked |
| BrokermaticWebhook.IssuedEffect | src/app/api/webhooks/brokermatic/route.ts:56-89 | the first request with the id becomes compliant iff the certificate is, otherwise non-compliant, and gets a fresh result and timestamps; its vendor takes the certificate's status, with `insuranceComplianceAt` `now` iff compliant and null otherwise; nothing else changes |
| BrokermaticWebhook.IssuedWithoutMatch | src/app/api/webhooks/brokermatic/route.ts:56-62 | without a request id, or with one no request carries, nothing changes |
| BrokermaticWebhook.MatchingVendorEffect | src/app/api/webhooks/brokermatic/route.ts:141-277 | a vendor is patched iff one of its requests matches the certificate, and is untouched otherwise |
| BrokermaticWebhook.UpdatedEffect | src/app/api/webhooks/brokermatic/route.ts:116-150 | a matching request keeps its status and every stored result field except the new certificate and `lastUpdated`; vendor status changes only when `changes` names `complianceStatus`, and then only for matched vendors |
| BrokermaticWebhook.ExpiringExpiredEffect | src/app/api/webhooks/brokermatic/route.ts:178-224 | `certificate.expiring` sets matched vendors to `expiring_soon`; `certificate.expired` sets them to `expired` and clears `insuranceComplianceAt`; neither writes a request |
| BrokermaticWebhook.GapEffect | src/app/api/webhooks/brokermatic/route.ts:256-277 | matched requests become non-compliant with the gaps and `lastChecked` merged into their result; other requests are kept; matched vendors become non-compliant with `insuranceComplianceAt` cleared |
| LegacyWebhook.FirstVendor | src/app/api/webhooks/route.ts:20-38 | `findFirst` returns the first vendor the insured-id filter selects, or nothing: an absent id selects any vendor, a JSON `null` only one without an insured id, a value only the vendor with that id |
| LegacyWebhook.EditedCertificate | src/app/api/webhooks/route.ts:25-43 | a bulk update keeps a certificate's id, vendor, coverage type, policy number and expiration date |
| LegacyWebhook.UpdateMany | src/app/api/webhooks/route.ts:25-43 | exactly the certificates of the vendor with the coverage type are edited; the rest are kept and owners do not change |
| LegacyWebhook.UpdateCertificates | src/app/api/webhooks/route.ts:25-43 | the certificate table becomes `UpdateMany` of the old one; vendors and requests are unchanged |
| LegacyWebhook.Post | src/app/api/webhooks/route.ts:5-59 | the response and the new tables are `Outcome` of the old ones, which tells an absent member from a JSON `null` one and a `null` body from one without `data` |
| LegacyWebhook.HeadersGate | src/app/api/webhooks/route.ts:6-58 | a missing signature or event header gives 400 and no change; with both present the signature is never checked, the answer is `received` or a server error, and a non-null body is `received` unless a certificate event lacks `data` or has a `null` coverage type |
| LegacyWebhook.ServerErrorExactly | src/app/api/webhooks/route.ts:14-50 | the handler throws exactly on an unparsable body, a `null` body under an event that reads `body.data`, a certificate event whose `data` is absent or `null`, and a `null` coverage type that reaches `updateMany`; a throw writes nothing |
| LegacyWebhook.NullBodyAnswers | src/app/api/webhooks/route.ts:16-58 | a `null` body throws for the two certificate events and `compliance.gap_detected`, and is `received` for any other event; nothing is written |
| LegacyWebhook.OtherEventsChangeNothing | src/app/api/webhooks/route.ts:49-58 | any event other than the two certificate events changes nothing, and answers `received` for every body but `null` |
| LegacyWebhook.CertificateEventEffect | src/app/api/webhooks/route.ts:17-44 | `certificate.expiring` gives the first matching vendor's certificates of that coverage status `expiring` and `notifiedDate := now`; `certificate.expired` gives them `expired` and keeps `notifiedDate`; other certificates, vendors and requests do not change |
| LegacyWebhook.OnlyFirstVendor | src/app/api/webhooks/route.ts:20-28 | certificates of any vendor but the first matching one are untouched |
| LegacyWebhook.NoVendorNoChange | src/app/api/webhooks/route.ts:23-39 | when no vendor matches, nothing changes |
| LegacyWebhook.MissingInsuredIdPicksFirstVendor | src/app/api/webhooks/route.ts:20-22 | an absent insured id drops the filter, so the first stored vendor is the one updated |
| LegacyWebhook.NullInsuredIdPicksFirstUnlinked | src/app/api/webhooks/route.ts:20-22 | a JSON `null` insured id is an IS NULL test: it selects exactly the first vendor without an insured id, and nothing when every vendor has one |
| LegacyWebhook.NullCoverageTypeRejected | src/app/api/webhooks/route.ts:20-28 | a `null` coverage type gives a server error and no change when a vendor matches, and `received` with no change when none does |
| Dates.CeilDiv | src/app/compliance/page.tsx:34 | the quotient is the ceiling: q·d is the least multiple of d at or above x |
| Dates.FloorDiv | src/lib/brokermatic/smart-coi-client.ts:291 | the quotient is the floor: q·d is the greatest multiple of d at or below x |
| Dates.DaysBetween | src/app/compliance/page.tsx:31-35 | the day count is the ceiling of the difference over 86 400 000 ms |
| Dates.DaysUntil | src/app/compliance/page.tsx:31-35 | the day count is null iff the date is missing, and otherwise the ceiling day count |
| Dates.CeilUnique | src/app/compliance/page.tsx:34 | any q satisfying the ceiling bounds is the ceiling |
| Dates.FloorVersusCeil | src/lib/brokermatic/smart-coi-client.ts:291 | floor and ceiling agree on exact multiples and differ by one otherwise |
| Dates.DaysMonotone | src/app/compliance/page.tsx:31-35 | a later date never has a smaller day count |
| Dates.WithinDays | src/app/compliance/page.tsx:276-284 | a date is at most n·86 400 000 ms ahead iff its ceiling day count is at most n |
| Dates.SignOfDays | src/app/compliance/page.tsx:31-35 | a date not in the past has a non-negative count, a past one a non-positive count, and a negative count means the date is past |
| Dates.DaysCell | src/app/compliance/page.tsx:723-725 | the days cell is "N/A" without a date, "\|d\| days overdue" for negative d, and "d days" otherwise |
| Dates.DaysCellDistinct | src/app/compliance/page.tsx:723-725 | distinct day counts give distinct cells, so the cell determines the count |
| Buckets.CountWhere | src/app/page.tsx:99-103 | a filtered count never exceeds the list length |
| Buckets.CountMonotone | src/app/page.tsx:101-103 | a weaker filter counts at least as many |
| Buckets.CountDisjoint | src/app/page.tsx:100-103 | two disjoint filters count at most the list length together |
| Buckets.WithinNested | src/app/page.tsx:100-103 | an m-day bucket lies inside every longer one, and no certificate is both expired and in a bucket |
| Buckets.CountNested | src/app/page.tsx:101-103 | a shorter bucket counts no more than a longer one |
| Buckets.CountExpiredApart | src/app/page.tsx:100-103 | expired plus any bucket counts at most the list length |
| Dashboard.GetStats | src/app/page.tsx:98-103 | the total is the list length, and the compliant and expired counts fit in it |
| Dashboard.StatsNested | src/app/page.tsx:98-103 | `expiring30 ≤ expiring60 ≤ expiring90` and `expired + expiring90 ≤ totalCerts` |
| Dashboard.UndatedInNoBucket | src/app/page.tsx:98-103 | a certificate without a date adds one to the total and nothing to the date buckets |
| Dashboard.CompliantCountsStatus | src/app/page.tsx:99 | a certificate adds one to `compliant` iff its status is exactly `compliant` |
| Dashboard.GapsSubtitle | src/app/page.tsx:822-824 | the subtitle is "All vendors are compliant" iff the count is 0 |
| Dashboard.SubtitlePlural | src/app/page.tsx:822-824 | a positive count is followed by "vendor" for one and "vendors" otherwise |
| Dashboard.RequestChip | src/app/page.tsx:1074 | the chip reads "Pending" iff the status is `pending`, and otherwise "Fulfilled" |
| CompliancePage.StatusBadge | src/app/compliance/page.tsx:37-155 | a compliant status always gives "Compliant" |
| CompliancePage.BadgeIgnoresStatusWithinWindow | src/app/compliance/page.tsx:37-155 | within 90 days, any two non-compliant statuses give the same badge |
| CompliancePage.BadgeOutsideWindow | src/app/compliance/page.tsx:37-155 | without a date or beyond 90 days, `non_compliant` and `pending` give "Non-Compliant" and any other status shows itself |
| CompliancePage.BadgeBands | src/app/compliance/page.tsx:37-155 | for a non-compliant status within 90 days: "Expired" iff d < 0, "Expiring Soon" iff 0 ≤ d ≤ 30, "Expiring" iff 31 ≤ d ≤ 60, "Watch" iff 61 ≤ d ≤ 90 |
| CompliancePage.SearchParam | src/app/compliance/page.tsx:184-185 | an absent parameter reads as "" and a present one is trimmed |
| CompliancePage.AllHoldConcat | src/app/compliance/page.tsx:220-229 | an `AND` of two condition lists holds iff both hold |
| CompliancePage.PushHolds | src/app/compliance/page.tsx:208-218 | a condition pushed only when its value is non-empty constrains only then |
| CompliancePage.FilterConditions | src/app/compliance/page.tsx:205-218 | there are no filter conditions iff all three filters are empty |
| CompliancePage.FilterConditionsHold | src/app/compliance/page.tsx:205-218 | the pushed conditions hold iff the row satisfies every active filter |
| CompliancePage.WhereShapes | src/app/compliance/page.tsx:198-232 | the bare `OR` clause and the `AND` of the base `OR` with the filters each select what their parts say |
| CompliancePage.BuildFlaggedWhere | src/app/compliance/page.tsx:198-232 | the built clause selects a row iff it is flagged (non-compliant, pending, or expiring within 90 days) and matches every active filter; it keeps the bare `OR` iff there are no filters |
| CompliancePage.FiltersNarrow | src/app/compliance/page.tsx:205-232 | dropping any one filter keeps every row that matched, so adding filters only narrows |
| CompliancePage.OrderByFor | src/app/compliance/page.tsx:236-242 | the three sort keys map to their field, and any other key falls back to expiration ascending |
| CompliancePage.SortByVendorName | src/app/compliance/page.tsx:259-267 | the in-place sort leaves the array ordered by vendor name (reversed for `desc`) and a permutation of the fetched rows |
| CompliancePage.InsertOne | src/app/compliance/page.tsx:259-267 | one insertion step extends the sorted prefix by one element and keeps the array a permutation |
| CompliancePage.SwapStep | src/app/compliance/page.tsx:261-265 | swapping an out-of-order neighbour pair moves the inserted element left and keeps the prefix invariant and the multiset |
| CompliancePage.InsertDone | src/app/compliance/page.tsx:261-265 | when the inserted element is not smaller than its left neighbour, the prefix is sorted |
| CompliancePage.Counts | src/app/compliance/page.tsx:272-285 | the compliant and non-compliant counts fit in the list |
| CompliancePage.CountsNested | src/app/compliance/page.tsx:272-285 | `expiring30 ≤ expiring60 ≤ expiring90`, expired plus the 90-day bucket fit in the list, and so do the compliant and non-compliant counts |
| CompliancePage.PendingCountsAsNonCompliant | src/app/compliance/page.tsx:273-275 | a pending certificate adds one to the non-compliant count |
| CompliancePage.GetInitials | src/app/compliance/page.tsx:157-163 | initials are at most two characters |
| CompliancePage.SeveralWordsNonEmpty | src/app/compliance/page.tsx:158 | splitting a trimmed name with several words gives a non-empty first and last word |
| CompliancePage.InitialsOfSeveralWords | src/app/compliance/page.tsx:157-163 | a name of several words gives the upper-cased first letters of its first and last words |
| CompliancePage.InitialsOfOneWord | src/app/compliance/page.tsx:157-161 | a one-word name gives its first two characters upper-cased |
| CompliancePage.AvatarIndex | src/app/compliance/page.tsx:165-175 | the palette index is the first character code mod 5, and is missing only for the empty name |
| ExpiringPage.Window | src/app/compliance/expiring/page.tsx:42-64 | the window keeps, each as often as stored, exactly the certificates dated between now and now + 90 days |
| ExpiringPage.InsertByExpiry | src/app/compliance/expiring/page.tsx:42-64 | inserting into an expiry-sorted list keeps it sorted and adds exactly the one element |
| ExpiringPage.SortByExpiry | src/app/compliance/expiring/page.tsx:42-64 | the result is sorted by ascending expiration and a permutation of the input |
| ExpiringPage.ListingExact | src/app/compliance/expiring/page.tsx:42-64 | the page lists exactly the stored certificates in the window, each as often as stored, soonest first |
| ExpiringPage.ListedDays | src/app/compliance/expiring/page.tsx:27-64 | every listed certificate is between 0 and 90 ceil days away |
| ExpiringPage.CountUnder | src/app/compliance/expiring/page.tsx:66-73 | a count under a threshold fits in the listing |
| ExpiringPage.CountsOrdered | src/app/compliance/expiring/page.tsx:66-73 | `countUnder7 ≤ countUnder30 ≤ expiringCerts.length` |
| ExpiringPage.DaysBelowMeans | src/app/compliance/expiring/page.tsx:66-73 | a count below n means the date is at most n − 1 days ahead |
| ExpiringPage.RowBackgroundColor | src/app/compliance/expiring/page.tsx:33-39 | no day count gives `#fff` |
| ExpiringPage.Band | src/app/compliance/expiring/page.tsx:33-39 | the band is 0 iff d < 7 and 3 iff d ≥ 60, and one of four |
| ExpiringPage.SameThresholds | src/app/compliance/expiring/page.tsx:33-39 | two day counts share a row colour iff they share a text colour iff they fall in the same 7/30/60 band |
| VendorsPage.LeadingDigits | src/app/vendors/page.tsx:138-141 | the digits `parseInt` reads are the longest all-digit prefix |
| VendorsPage.LeadingDigitsOf | src/app/vendors/page.tsx:140 | a block of digits followed by nothing or by a non-digit is exactly what `parseInt` reads |
| VendorsPage.ParsePage | src/app/vendors/page.tsx:138-141 | the page is at least 1; it is 1 iff the parameter is missing or parses to nothing or to at most 1, and otherwise it is the parsed value |
| VendorsPage.ParseIntUnsigned | src/app/vendors/page.tsx:140 | a string starting with a digit parses to the value of its leading digits |
| VendorsPage.ParseIntMinus | src/app/vendors/page.tsx:140 | a minus sign followed by digits parses to the negated value of those digits |
| VendorsPage.ParseIntOfNat | src/app/vendors/page.tsx:140 | a printed number followed by a non-digit parses back to that number |
| VendorsPage.ParseIntOfNegative | src/app/vendors/page.tsx:140 | a minus sign and a printed number parse to the negated number |
| VendorsPage.ParsePageRoundTrip | src/app/vendors/page.tsx:138-141 | a printed page number of at least 1 reads back as itself |
| VendorsPage.ParsePageFallsBackToOne | src/app/vendors/page.tsx:138-141 | "0", any negative number and any non-numeric text all give page 1 |
| VendorsPage.TotalPages | src/app/vendors/page.tsx:211 | `max(1, ceil(total / 25))`: 1 for no rows, otherwise the least page count whose pages hold every row |
| VendorsPage.PaginationShownWhenOverflowing | src/app/vendors/page.tsx:514 | the bar renders iff there are more than 25 rows |
| VendorsPage.Skip | src/app/vendors/page.tsx:187 | the skip is a multiple of 25, namely (page − 1)·25 |
| VendorsPage.FetchPage | src/app/vendors/page.tsx:187-188 | the page holds at most 25 rows, each the stored row at its offset from the skip |
| VendorsPage.ShowingMatchesFetched | src/app/vendors/page.tsx:534-536 | on a page in range, the "Showing a – b" caption counts exactly the fetched rows and names its first and last |
| VendorsPage.EveryRowOnItsPage | src/app/vendors/page.tsx:187-211 | every row is on page ⌊i/25⌋ + 1, which exists, at position i mod 25 |
| VendorsPage.BeyondLastPage | src/app/vendors/page.tsx:534-536 | a page past the last one is not clamped: it fetches nothing and its caption's range is inverted |
| VendorsPage.PreviousOrNext | src/app/vendors/page.tsx:541-664 | when the bar renders, every page has a Previous or a Next link; the last page has no Next and page 1 no Previous |
| VendorsPage.KeptUpTo | src/app/vendors/page.tsx:589-592 | the filter keeps, strictly ascending, exactly the pages up to n that are 1, the last, or within 2 of the current one |
| VendorsPage.KeptPagesExact | src/app/vendors/page.tsx:589-592 | the kept pages are strictly ascending and are exactly 1, the last page and the pages within 2 of the current one; 1, the last and the current page in range are always kept |
| VendorsPage.WithGaps | src/app/vendors/page.tsx:593-599 | the reduction is empty iff its input is, and starts and ends with the first and last kept page |
| VendorsPage.WithGapsNumbers | src/app/vendors/page.tsx:593-599 | removing the ellipses gives back the kept pages, in order |
| VendorsPage.WithGapsExact | src/app/vendors/page.tsx:593-599 | on ascending pages, an ellipsis stands exactly between neighbours more than 1 apart |
| VendorsPage.PageList | src/app/vendors/page.tsx:589-600 | the `reduce` loop pushing into an accumulator builds exactly the page list with ellipses |
| VendorsPage.PageListExact | src/app/vendors/page.tsx:589-600 | the page list shows exactly the kept pages in order, with an ellipsis exactly at each gap |
| VendorsPage.ReadFilters | src/app/vendors/page.tsx:122-137 | the order is `asc` unless the parameter is exactly `desc`, and the search is trimmed |
| VendorsPage.AllFiltersUnique | src/app/vendors/page.tsx:216-222 | the seven filter keys are distinct |
| VendorsPage.NonEmptyGet | src/app/vendors/page.tsx:224-226 | dropping empty values makes an empty value read as absent and leaves the others |
| VendorsPage.SpreadGet | src/app/vendors/page.tsx:223 | in `{...base, ...overrides}` an override wins and any other key reads as in the base |
| VendorsPage.QueryStringEmpty | src/app/vendors/page.tsx:227-228 | `buildQs` returns "" iff nothing remains, and otherwise "?" and the query |
| VendorsPage.QueryPairsRead | src/app/vendors/page.tsx:214-229 | each key of the built query reads as the override, else the filter, with empty values absent |
| VendorsPage.CollectBase | src/app/vendors/page.tsx:215-222 | the `if (x) base.k = x` chain builds exactly the non-empty filters, in order |
| VendorsPage.DropEmptyValues | src/app/vendors/page.tsx:224-226 | the `forEach`/`delete` loop leaves exactly the non-empty pairs, in order |
| VendorsPage.BuildQs | src/app/vendors/page.tsx:214-229 | the method returns exactly the specified query string |
| VendorsPage.PageQueryRead | src/app/vendors/page.tsx:617 | a page link's query reads `page` as the printed page number and every other key as its filter, with empty values absent |
| VendorsPage.PageQueryFilter | src/app/vendors/page.tsx:617 | a page link keeps the value of each filter other than `page` |
| VendorsPage.ReadFiltersOf | src/app/vendors/page.tsx:122-137 | reading parameters that carry a filter set's values gives back that filter set |
| VendorsPage.PageQueryFilters | src/app/vendors/page.tsx:617 | a page link carries every current filter value |
| VendorsPage.PageLinkKeepsFilters | src/app/vendors/page.tsx:617 | following a page link reads back the same filters |
| VendorsPage.PageLinkLandsOnPage | src/app/vendors/page.tsx:617 | following the link to page p lands on page p |
| VendorsPage.PageHrefHasQuery | src/app/vendors/page.tsx:617 | a page link always has a query and starts with `/vendors?` |
| VendorsPage.GetInitials | src/app/vendors/page.tsx:80-86 | initials are at most two characters |
| VendorsPage.InitialsOfTwoWords | src/app/vendors/page.tsx:80-86 | a name of several words gives the upper-cased first letters of its first and second words |
| VendorsPage.InitialsOfOneWord | src/app/vendors/page.tsx:80-84 | a one-word name gives its first two characters upper-cased |
| VendorsPage.AvatarIndex | src/app/vendors/page.tsx:89-113 | the palette index is the first character code mod 6, and is missing only for the empty name |
| VendorsPage.AvatarColorsAgree | src/app/vendors/page.tsx:89-113 | background and text colour come from the same palette entry, so two names share one iff they share the other iff their first codes agree mod 6 |
| VendorsPage.StatusChipStyles | src/app/vendors/page.tsx:47-57 | any status other than `active` and `suspended` gets the inactive colours, and the two named ones differ |
| VendorsPage.StatusChipLabel | src/app/vendors/page.tsx:60 | the label upper-cases the first letter and keeps the rest |
| FilterableTableHeaderCell.SortClick | src/components/FilterableTableHeaderCell.tsx:47-74 | a click on a column without a sort key does nothing; otherwise it navigates to the current parameters with `sort` and the next order set |
| FilterableTableHeaderCell.FilterCell.constructor | src/components/FilterableTableHeaderCell.tsx:52-56 | a mounted cell starts with an empty filter box |
| FilterableTableHeaderCell.FilterCell.LoadFilter | src/components/FilterableTableHeaderCell.tsx:52-56 | the box is filled with the parameter's value, or "" when absent, and only when there is a filter key |
| FilterableTableHeaderCell.FilterCell.HandleFilterChange | src/components/FilterableTableHeaderCell.tsx:77-88 | the box keeps the typed text as typed, and the navigation sets the trimmed value or removes the key, dropping `page` |
| FilterableTableHeaderCell.FilterCell.HandleClearFilter | src/components/FilterableTableHeaderCell.tsx:91-97 | the box is emptied and the navigation removes the filter key and `page` |
| FilterableTableHeaderCell.FilterQueryReads | src/components/FilterableTableHeaderCell.tsx:77-88 | after a change `page` is gone, the key holds the trimmed value (absent when blank), and every other key reads as before |
| FilterableTableHeaderCell.FilterQueryKeepsOthers | src/components/FilterableTableHeaderCell.tsx:77-88 | apart from the filter key and `page`, every parameter pair stays, in order |
| FilterableTableHeaderCell.BlankIsClear | src/components/FilterableTableHeaderCell.tsx:77-97 | typing only whitespace navigates exactly as the clear button does |
| FilterableTableHeaderCell.ClearQueryReads | src/components/FilterableTableHeaderCell.tsx:91-97 | clearing removes the filter key and `page` and nothing else |
| SortControls.ParseOrder | src/app/compliance/page.tsx:188-190 | the order is `desc` iff the parameter is exactly `desc` |
| SortControls.OrderText | src/components/FilterableTableHeaderCell.tsx:65 | the `order` value written to the URL is `asc` or `desc` |
| SortControls.NextOrder | src/components/FilterableTableHeaderCell.tsx:59 | the next order is `desc` iff the column is active and sorted ascending |
| SortControls.Direction | src/components/FilterableTableHeaderCell.tsx:116 | the arrow shows the current order on the active column and `asc` elsewhere |
| SortControls.BuildSortUrl | src/components/FilterableTableHeaderCell.tsx:62-67 | the method that copies and mutates the parameters returns the path with the specified sort query |
| SortControls.SortQueryReads | src/components/FilterableTableHeaderCell.tsx:62-67 | the sort link reads `sort` as the key and `order` as the next order, and every other key as before |
| SortControls.SortQueryKeepsOthers | src/components/FilterableTableHeaderCell.tsx:62-67 | apart from `sort` and `order`, every parameter pair stays, in order |
| SortControls.ClicksAlternate | src/components/FilterableTableHeaderCell.tsx:59 | an inactive column first sorts ascending, and repeated clicks on the active one alternate |
| TableHeaderCell.DisplayLabel | src/components/TableHeaderCell.tsx:31 | the label shown is `label` when it is non-empty, otherwise the children |
| TableHeaderCell.Render | src/components/TableHeaderCell.tsx:31-59 | a cell without a sort key renders no link; a sortable cell is active iff the current sort is its key; both show the display label |
| TableHeaderCell.SortLink | src/components/TableHeaderCell.tsx:33-59 | a sortable cell links to its path with `sort` and the next order set, keeps every other parameter, and points its arrow by the current order |
| ComplianceFilters.ReadParam | src/components/ComplianceFilters.tsx:18-20 | a parameter reads as its value, or "" when absent |
| ComplianceFilters.HandleFilterChange | src/components/ComplianceFilters.tsx:22-30 | the navigation goes to `/compliance` with the changed parameters |
| ComplianceFilters.HandleClearFilters | src/components/ComplianceFilters.tsx:32-34 | clearing goes to `/compliance` with no query at all |
| ComplianceFilters.ChangeQueryReads | src/components/ComplianceFilters.tsx:22-30 | a non-empty value is set untrimmed and an empty one removes the key; every other key, `page` included, reads as before |
| ComplianceFilters.ClearAndSet | src/components/ComplianceFilters.tsx:32-36 | after clearing no filter is active, and setting a non-empty search always makes one active |
| ComplianceFilters.EmptyingLastFilter | src/components/ComplianceFilters.tsx:22-36 | emptying the only active filter leaves `hasFilters` false |
| NavBar.ActiveRule | src/components/NavBar.tsx:26-29 | "/" is active iff the path is exactly "/"; any other tab is active iff the path starts with its href |
| NavBar.OnlyDashboardOnRoot | src/components/NavBar.tsx:16-29 | on "/" only the dashboard tab is active |
| NavBar.NestedVendorPath | src/components/NavBar.tsx:16-29 | "/vendors/x/insurance" activates Vendors and neither Dashboard nor Compliance |
| NavBar.PrefixNotSegment | src/components/NavBar.tsx:28 | the test is a character prefix, so "/vendorsX" activates Vendors |
| NavBar.AtMostOneTab | src/components/NavBar.tsx:16-29 | no path activates two tabs |
| Templates.RowClassesStyled | src/lib/email/templates.ts:105-112 | the shared style sheet has a `.label` rule and a `.value` rule, the two classes of a details row |
| Templates.ListItems | src/lib/email/templates.ts:246 | the rendered gap list has length 9 per gap plus the gaps' lengths: each gap is wrapped in `<li></li>` with no separator |
| Templates.ListItemsAppend | src/lib/email/templates.ts:246 | rendering two gap lists one after the other is rendering their concatenation, so input order is kept |
| Templates.ListItemsShowEach | src/lib/email/templates.ts:246 | every gap appears verbatim as its own list item |
| Templates.Urgency | src/lib/email/templates.ts:132 | the urgency is `danger` iff the day count is at most 30, and otherwise `warning` |
| Templates.DaysColor | src/lib/email/templates.ts:178 | the day-count colour is `#EA5455` iff the urgency is `danger`, and otherwise `#FF9F43` |
| Templates.ExpiringTemplateShowsField | src/lib/email/templates.ts:162-174 | the expiring notice shows the vendor name, coverage type, policy number and date verbatim, unescaped, as value cells |
| Templates.ExpiringTemplateShowsLink | src/lib/email/templates.ts:190 | the expiring notice links to the certificate URL, unescaped |
| Templates.ExpiringTemplateShowsUrgency | src/lib/email/templates.ts:132-178 | the expiring notice uses the urgency as its alert class and shows the day count in the urgency's colour |
| Templates.ExpiringRowShown | src/lib/email/templates.ts:158-180 | whatever a details row of the expiring notice contains, the notice contains |
| Templates.NonCompliantTemplateShowsVendor | src/lib/email/templates.ts:240 | the non-compliance notice shows the vendor name verbatim |
| Templates.NonCompliantTemplateShowsGapList | src/lib/email/templates.ts:244-247 | the notice holds the whole gap list, so an empty list gives an empty `<ul>` |
| Templates.NonCompliantTemplateShowsGap | src/lib/email/templates.ts:246 | the notice holds every gap verbatim as a list item |
| Templates.NonCompliantShowsInGapList | src/lib/email/templates.ts:244-247 | whatever the rendered gap list contains, the non-compliance notice contains |
| Templates.PendingTemplateShowsBroker | src/lib/email/templates.ts:313 | the reminder shows the broker name, or "Not specified" when it is empty |
| Templates.PendingTemplateShowsEmail | src/lib/email/templates.ts:317-331 | the reminder shows the broker e-mail both as a value and as a mailto link |
| Templates.PendingTemplateShowsDays | src/lib/email/templates.ts:301-325 | the reminder shows the pending day count as given, in orange |
| Templates.PendingShowsMailto | src/lib/email/templates.ts:331 | the reminder holds the mailto link whose target and text are the broker e-mail |
| Templates.PendingRowShown | src/lib/email/templates.ts:305-327 | whatever a details row of the reminder contains, the reminder contains |
| Templates.ExpiredTemplateShowsDays | src/lib/email/templates.ts:390-406 | the expired notice shows the overdue day count as given, in red, and the vendor name |
| Templates.ExpiredRowShown | src/lib/email/templates.ts:386-408 | whatever a details row of the expired notice contains, the notice contains |
| ExportCompliance.CsvRow | src/components/ExportComplianceButton.tsx:41-54 | each row has exactly as many cells as the header |
| ExportCompliance.CsvRows | src/components/ExportComplianceButton.tsx:40-54 | the header comes first, then one row per certificate in input order |
| ExportCompliance.CsvLines | src/components/ExportComplianceButton.tsx:56 | each line is its row's cells joined with commas |
| ExportCompliance.HeaderText | src/components/ExportComplianceButton.tsx:40-56 | the first line is "Vendor,Coverage Type,Expiration Date,Days Remaining,Status" |
| ExportCompliance.HeaderSingleLine | src/components/ExportComplianceButton.tsx:40-56 | the header line holds no line break |
| ExportCompliance.DaysCellSingleLine | src/components/ExportComplianceButton.tsx:47-51 | the days cell holds neither a line break nor a comma |
| ExportCompliance.RowSingleLine | src/components/ExportComplianceButton.tsx:41-56 | a row whose fields have no line break is one line |
| ExportCompliance.LinesOfReport | src/components/ExportComplianceButton.tsx:40-57 | when no field holds a line break, splitting the report at "\n" gives back the header line and one line per certificate, in order |
| ExportCompliance.LineBreakAddsLines | src/components/ExportComplianceButton.tsx:56-57 | a line break inside any cell gives the report more lines than certificates plus one, since nothing is quoted |
| ExportCompliance.ColumnsOfRow | src/components/ExportComplianceButton.tsx:56 | when no cell holds a comma, splitting a line at commas gives back its cells |
| ExportCompliance.CommaShiftsColumns | src/components/ExportComplianceButton.tsx:56 | a comma inside any cell gives the line more columns than the header, since nothing is quoted |
| ExportCompliance.DateColumn | src/components/ExportComplianceButton.tsx:20-46 | the date column is "N/A" without a date, otherwise the locale rendering; a rendering with a comma, such as "Jan 5, 2026", shifts the columns |
| ExportCompliance.DaysColumn | src/components/ExportComplianceButton.tsx:29-51 | the days column is "N/A" iff there is no date, "\|d\| days overdue" for a date a day or more past, and "d days" otherwise |
| ExportCompliance.DaysColumnDistinct | src/components/ExportComplianceButton.tsx:47-51 | two dated rows show the same days text iff their ceiling day counts agree |
| ExportCompliance.RawColumns | src/components/ExportComplianceButton.tsx:44-52 | the vendor, coverage and status columns are the raw stored values |
| QueryParams.Get | src/components/FilterableTableHeaderCell.tsx:54 | `get` is absent iff no pair has the key, and otherwise returns a value paired with it |
| QueryParams.Delete | src/components/FilterableTableHeaderCell.tsx:84-86 | `delete` keeps exactly the pairs with another key |
| QueryParams.Set | src/components/FilterableTableHeaderCell.tsx:64-65 | after `set` the pair is present |
| QueryParams.Href | src/components/FilterableTableHeaderCell.tsx:66 | the URL is the path, then "?", then the query |
| QueryParams.GetDelete | src/components/FilterableTableHeaderCell.tsx:84-86 | after `delete`, the key reads as absent and every other key as before |
| QueryParams.GetSet | src/components/FilterableTableHeaderCell.tsx:64-65 | after `set`, the key reads as the value and every other key as before |
| QueryParams.DeleteIdempotent | src/components/ComplianceFilters.tsx:27 | deleting twice is deleting once |
| QueryParams.DeleteSet | src/components/FilterableTableHeaderCell.tsx:81-86 | deleting a key just set is deleting it from the original |
| QueryParams.DeleteCommutes | src/components/FilterableTableHeaderCell.tsx:94-95 | two deletions commute |
| QueryParams.DeleteAfterSet | src/components/FilterableTableHeaderCell.tsx:81-86 | deleting one key after setting another is setting it after the deletion |
| QueryParams.GetAppend | src/components/FilterableTableHeaderCell.tsx:54 | `get` on a concatenation reads the first part first |
| QueryParams.DeleteAppend | src/components/FilterableTableHeaderCell.tsx:84-86 | `delete` distributes over concatenation |
| QueryParams.DeleteAbsent | src/components/ComplianceFilters.tsx:27 | deleting an absent key changes nothing |
| QueryParams.GetUniqueAt | src/app/vendors/page.tsx:223-228 | with distinct keys, each pair's key reads as its value |
| QueryParams.DeleteUnique | src/app/vendors/page.tsx:224-226 | deletion keeps the keys distinct |
| QueryParams.SetUnique | src/components/FilterableTableHeaderCell.tsx:64-65 | `set` keeps the keys distinct |
| QueryParams.EncodeEmpty | src/app/vendors/page.tsx:227-228 | the encoded query is empty iff there are no pairs |
| QueryParams.SearchParams.constructor | src/components/FilterableTableHeaderCell.tsx:63 | a copy holds exactly the current pairs |
| QueryParams.SearchParams.GetValue | src/components/FilterableTableHeaderCell.tsx:54 | reading the object agrees with `Get` on its pairs |
| QueryParams.SearchParams.SetValue | src/components/FilterableTableHeaderCell.tsx:64-65 | the pairs become `Set` of the old ones, and the key then reads as the value |
| QueryParams.SearchParams.DeleteKey | src/components/FilterableTableHeaderCell.tsx:84-86 | the pairs become `Delete` of the old ones, and the key then reads as absent |
| QueryParams.SearchParams.ToString | src/components/FilterableTableHeaderCell.tsx:66 | the serialisation is empty iff there are no pairs |
| Records.FindVendor | src/lib/email/notification-service.ts:122-130 | the lookup succeeds iff a vendor has the id, and returns a stored vendor with that id |
| Records.LinkedAfterUpdate | src/app/api/webhooks/brokermatic/route.ts:69-89 | updates that keep vendor ids, certificate owners and request owners keep every record linked |
| Records.Patched | src/app/api/webhooks/brokermatic/route.ts:83-89 | a vendor update changes only the status and compliance date it names |
| Records.UpdateVendor | src/app/api/webhooks/brokermatic/route.ts:83-89 | `vendor.update` patches exactly the vendor with the id and keeps the ids |
| Records.PatchVendors | src/app/api/webhooks/brokermatic/route.ts:141-150 | patching a set of ids patches exactly those vendors and keeps the ids |
| Records.PatchedTwice | src/app/api/webhooks/brokermatic/route.ts:141-150 | applying the same patch twice is applying it once |
| Records.PatchOneMore | src/app/api/webhooks/brokermatic/route.ts:141-150 | one more vendor update is patching one more id |
| Records.Database.constructor | src/lib/email/notification-service.ts:30 | the store holds exactly the given linked tables |
| Text.Trim | src/lib/email/notification-service.ts:366 | `trim` returns a trimmed contiguous slice of its input |
| Text.TrimOfTrimmed | src/lib/email/notification-service.ts:366 | trimming a trimmed string changes nothing |
| Text.Fields | src/app/compliance/page.tsx:158 | `split(/\s+/)` always gives at least one piece |
| Text.FieldsOfTrimmed | src/app/compliance/page.tsx:158 | `split(/\s+/)` of a non-empty trimmed name gives non-empty words without spaces |
| Text.SingleField | src/app/compliance/page.tsx:158-159 | such a name is one word iff it has no space |
| Text.Split | src/lib/email/notification-service.ts:366 | `split` gives at least one piece |
| Text.SplitJoin | src/lib/email/notification-service.ts:366 | joining the pieces of a split with its separator gives back the string |
| Text.SplitCount | src/lib/email/notification-service.ts:366 | `split` gives one piece more than there are separators |
| Text.SplitPieces | src/lib/email/notification-service.ts:366 | no piece contains the separator |
| Text.JoinSplit | src/components/ExportComplianceButton.tsx:56-57 | splitting a join of separator-free parts gives back the parts |
| Text.JoinLength | src/lib/email/templates.ts:246 | a join is as long as its parts plus one separator between each |
| Text.Upper | src/app/compliance/page.tsx:160-162 | `toUpperCase` maps each character and keeps the length |
| Text.ReplaceAll | src/lib/email/notification-service.ts:229 | `replace(/_/g, ' ')` keeps the length, replaces every underscore and leaves none |
| Text.NatToString | src/app/vendors/page.tsx:617 | a printed number is a non-empty string of digits |
| Text.NatToStringValue | src/app/vendors/page.tsx:617 | reading back the digits of a printed number gives the number |
| Text.NatToStringInjective | src/app/vendors/page.tsx:617 | distinct numbers print differently |
| Text.IntToString | src/lib/email/templates.ts:154 | a printed integer is non-empty and starts with "-" iff it is negative |
| Text.Capitalize | src/app/vendors/page.tsx:60 | the first character is upper-cased, the rest is kept, and the length is unchanged |
| Common.OrElse | src/app/api/webhooks/brokermatic/route.ts:294 | JavaScript `a \|\| b` on strings: a non-empty `a`, otherwise `b` |

## Left out

- Prisma is reduced to filters and in-place updates over in-memory sequences. Query shapes (`include`, `select`), `Promise.all` and database ordering among equal keys are not modelled.
- The vendors-page where-clause (src/app/vendors/page.tsx:144-171) and its other Prisma queries are not modelled. Only the parameter reading, pagination, query string and display rules are.
- The mailer `sendEmail` is the oracle `send`. Its environment-dependent behaviour is outside the model. `sendBulkEmail` is not modelled.
- `new Date()`, `Date.now()` and the current year are parameters. `Math.random`, `uuid` and the 500 ms `setTimeout` of the mock client are left out; the random part of the mock policy number is the parameter `rand4`.
- The real `fetch` path of the Smart COI client (src/lib/brokermatic/smart-coi-client.ts:184-207) is network I/O and is not modelled.
- BrokermaticWebhook.Post: the HMAC-SHA256 signature check (src/app/api/webhooks/brokermatic/route.ts:22-40) is the abstract predicate `verify`. The cryptography is not modelled.
- Locale formatting (`toLocaleDateString`, `toLocaleString`, `Intl.NumberFormat`) is an opaque function parameter.
- CompliancePage.SortByVendorName: `localeCompare` is a rank function parameter. The contract states order and permutation but not stability. Both the insertion sort, which moves a row only past a strictly greater key, and the engine's stable `Array.prototype.sort` keep rows with equal names in fetch order.
- URL percent-encoding is the abstract parameter `escape`. QueryParams.Href and QueryParams.SearchParams.ToString state the shape of the URL, not the encoded bytes.
- Strings are sequences of Unicode code points, whereas JavaScript indexes UTF-16 code units. The two agree on every character of the Basic Multilingual Plane and differ on characters written as surrogate pairs.
- `trim()` and `/\s+/` use the whole WhiteSpace and LineTerminator set of ECMA-262 (Text.IsSpace). `toUpperCase` is modelled on the ASCII letters only: non-ASCII letters are left as they are, where JavaScript maps them, for example "é" to "É" and "ß" to "SS".
- CompliancePage.InitialsOfSeveralWords: `words[0][0]` reads one UTF-16 code unit, and the model reads one code point. A word starting outside the Basic Multilingual Plane contributes its lone high surrogate in the source but the whole character in the model.
- CompliancePage.InitialsOfOneWord: `substring(0, 2)` counts UTF-16 code units, and the model counts code points. For "😀abc" the source gives "😀" and the model gives "😀A".
- CompliancePage.AvatarIndex: `charCodeAt(0)` is a UTF-16 code unit, and the model uses the first code point. For a name starting with U+1D400 the source gives 55349 % 5 = 4 and the model gives 119808 % 5 = 3.
- VendorsPage.InitialsOfTwoWords: `words[0][0]` and `words[1][0]` read one UTF-16 code unit each, and the model reads one code point. A word starting outside the Basic Multilingual Plane contributes its lone high surrogate in the source but the whole character in the model.
- VendorsPage.InitialsOfOneWord: `substring(0, 2)` counts UTF-16 code units, and the model counts code points. For "😀abc" the source gives "😀" and the model gives "😀A".
- VendorsPage.AvatarIndex: `charCodeAt(0)` is a UTF-16 code unit, and the model uses the first code point. For a name starting with U+1D400 the source gives 55349 % 6 = 5 and the model gives 119808 % 6 = 0.
- Text.ContainsInsensitive: the `contains` filters with `mode: "insensitive"` (src/app/compliance/page.tsx:209-213) are modelled by folding ASCII letters only. The database folds case by its own collation rules, which also cover non-ASCII letters.
- Array-valued query parameters (`string[]`) read as absent, as the `typeof … === "string"` guards make them. `parseInt` is modelled on unbounded integers, without the precision loss of very long digit strings.
- The "N vendors found" caption (src/app/vendors/page.tsx:272) is not modelled.
- The `@updatedAt` timestamp maintenance of the schema is not modelled, because the schema file is not part of this model.
- The rendering, styling and DOM download steps (src/components/ExportComplianceButton.tsx:59-67) are not modelled. Neither are the `console.log` and `console.error` logging.
- LegacyWebhook.Post: a JSON `null` coverage type is modelled as Prisma refusing a `null` filter on a required column, as the `Certificate` table holds a string in every row; the Prisma schema is not part of this model. JSON values of the wrong type, such as a numeric insured id, are not modelled.
- ComplianceFilters.tsx uses `Typography` at line 56 without importing it. Only the parameter logic of that component is modelled.
- Dashboard.ShowsViewAll: the "View all" link rule (src/app/page.tsx:926) is a predicate with no contract of its own.
- SmartCoiClient.MockRequest: a GET or POST to a path outside the five routes throws in the body too, but the contract states that error only for other methods.
- The full HTML text of the notices, including the shared style sheet, is modelled. The contracts state what the notices contain, not their byte-exact text.
