# Verified models of the drafting platform's hardest cores

A Dafny project that models eight pieces of the repository and proves what they are for. Code that
changes state is modelled as classes and methods with loops, each proved against a specification
function or a stated property; protocols that several processes run at once are modelled as state
machines, one database, Redis or HTTP call per action, and proved over every sequence of actions.

| File | What it models |
|---|---|
| `UnionFind.dfy` | the union-find of the cost report: parents rewritten in place, path compression, no ranks |
| `CostTotals.dfy`, `CostPrices.dfy`, `CostGrouping.dfy`, `CostReport.dfy`, `CostWindows.dfy` | the cost report: stage totals, what a row costs, grouping rows into drafts, windows, aux rows shared by windows, grand totals |
| `AccountErase.dfy`, `AccountTraces.dfy`, `EraseSweep.dfy` | closing and erasing an account over three services, with failures, resumption and concurrent runs; what is left of it in the audit log, the sessions and Redis; the batched sweep |
| `Units.dfy`, `Spans.dfy`, `BlankFinder.dfy` | draft text as UTF-16 units; finding the blanks of a draft |
| `Patterns.dfy`, `BlankShapes.dfy`, `BlankExceptions.dfy`, `BlankRegistry.dfy` | regular expressions as data, with the language of each; the expressions of findBlanks, and what its matchers are in terms of them |
| `Markup.dfy`, `MarkupShapes.dfy`, `BlankRanges.dfy`, `BlankMarker.dfy`, `BlankNesting.dfy`, `BlankUnclosed.dfy`, `BlankExample.dfy` | reading HTML as text with its sources, and its tags and entities by their expressions; marking the blanks in the content, when the markup the marks become nests, and a draft for which it does not |
| `PaymentsBackfill.dfy`, `PaymentsReport.dfy`, `PaymentsDryRun.dfy`, `PaymentCredits.dfy`, `PaymentStamps.dfy` | the payments backfill: one run, what it reports and writes, its dry run, and overlapping or interrupted runs beside the webhook: the Ink they credit, and the payments that grants name |
| `FreeSeed.dfy`, `FreeSeedWrites.dfy`, `FreeSeedRun.dfy` | the free-seed backfill for one user under concurrency, when it writes, and the groups and counts of a whole run |
| `PasswordLimiter.dfy`, `PasswordWrites.dfy`, `PasswordWindows.dfy` | the password-change limiter and the compare-and-set of the password hash; who replaces it; the compares between two expiries |
| `PercentEncoding.dfy`, `InternalPaths.dfy`, `InternalSegments.dfy` | what a percent-encoding of a text is, and the gateway's check for an `internal` path segment under nested percent-encoding; what it takes for such a segment |
| `BlindWriter.dfy`, `AbSpend.dfy` | the blind writer's shuffle, ids and key; the spend of an A/B run |
| `Options.dfy` | an option type and two facts about sequence prefixes |

`dafny verify dfyconfig.toml` checks the whole project.

## What the proofs found

Seven things that the source's comments or its design count on are not true as they stand. Each is
stated and proved as far as it is true.

- The `account_delete` row does not always outlive the User record: the audit log's TTL index
  (`apps/auth/src/models/AuditLog.model.ts:67`) removes it two years after its writing, and the erase may end later. It is
  there when the User record goes within those two years (`DeleteRowOutlivesUser`); for any later time there is a history that
  leaves neither (`RowCanExpireFirst`). In every history it is there exactly when it was recorded and not removed since
  (`DeleteRowIffStanding`).
- The sweep reaches every pending erase, but not as fast as its order suggests: an attempt that fails while reading the
  user is not recorded, and costs one attempt more of someone else's. An erase is tried once limit times sweeps reaches the
  number ever pending plus the sweeps' attempts without a record, whatever is tried outside the sweeps meanwhile
  (`EveryEraseIsTried`); no smaller number will do
  (`FairnessIsTight`), and a batch of such erases starves one more for ever (`UnrecordedFailuresStarve`).
- The comment on `markBlanks` says that the markup always nests. It does as long as the marks count as tags
  (`MarkupNests`). With real tags put in, it does if and only if every `<` before the last marked range has a `>` somewhere
  after it (`NestsIffClosed`): else the reader takes an inserted tag for part of the unclosed one, and a content that nests
  becomes one that does not (`FirstRangeUnnests`), as the draft `<b ___` does (`UnclosedDraftUnnests`).
- A dry run of the payments backfill reports what `--apply` would, if and only if no new attributable payment has an
  invalid amount, and none that it attributes comes after one whose stored, unsettled row without Ink names the same
  subscription: `--apply` settles that row, and so finds two charges (`DryRunPredictsApply`, for every input). Such
  payments exist, as when Razorpay's answer for the first one fails (`OvertakenExists`).
- "A rerun after a crash finds the stamp and confirms by payment id" (`apps/billing/scripts/backfill-payments.ts:303-304`)
  holds if and only if the payment had no row yet. With a row of no Ink the rerun reads that row's 0, finds no
  unstamped grant and leaves the payment without Ink (`RerunAfterStop`); a run from a plain start stops there
  (`StoppedRunExists`).
- The free-seed backfill reads a user's balance in the cursor and the ledger later. When `applyOne` says
  'done', balance and ledger differ by exactly what moved between those two reads; they agree if and only if that is
  nothing (`DoneLeavesTheDrift`). A grant of 10 units in between pays the seed twice, a spend of 10 withholds it
  (`SplitReadsMisjudge`).
- "Five parallel guesses can never become more than five compares in one window" holds when no attempt of an
  earlier window gives its hit back in this one; each that does lets one more attempt in (`ComparesBounded`,
  `AdmittedIff`, `StrayReopensWindow`), and there is a history with six compares (`BoundIsMet`). A window here is one life of
  the key, which a DEL also ends. While no TTL runs out there are at most five compares more for each DEL
  (`ComparesInPeriod`); the DEL that follows the DECR of a hit given back, a call of its own, wipes the hits counted between the
  two and so lets a sixth guess in (`DelWipesHits`).

## Model

| member | source | states |
|---|---|---|
| `UnionFinds.UnionFind.Find` | scripts/cost-report/lib/aggregate.ts:123-135 | `find` ends on every reachable parent map, returns the key's root, adds only a new key, and path compression changes no key's root |
| `UnionFinds.UnionFind.Union` | scripts/cost-report/lib/aggregate.ts:136-140 | a union merges exactly the two classes and leaves every other root as it was |
| `UnionFinds.UnionFind.Same` | scripts/cost-report/lib/aggregate.ts:121-141 | after any unions and finds, two keys have the same root iff a path of united pairs connects them |
| `UnionFinds.SameRootIffConnected` | scripts/cost-report/lib/aggregate.ts:121-141 | roots decide the reflexive, symmetric, transitive closure of the united pairs, both ways |
| `UnionFinds.CompressedForest` | scripts/cost-report/lib/aggregate.ts:127-133 | pointing a key at its root keeps the forest and all roots |
| `UnionFinds.ClimbEndsAtRoot` | scripts/cost-report/lib/aggregate.ts:123-135 | in a forest, following parents from a key ends at its root within a bounded number of links, and stands still nowhere else |
| `CostTotals.PlusIsCommutativeMonoid` | scripts/cost-report/lib/aggregate.ts:56-62 | totals, with the cost source as a join semilattice, combine in any order and grouping |
| `CostTotals.SumOfPermutation` | scripts/cost-report/lib/aggregate.ts:76-110 | rows add up to the same calls, tokens, money, models and source in any order |
| `CostTotals.CombinedMeaning` | scripts/cost-report/lib/aggregate.ts:56-62 | what a combined source says of the rows it was combined from |
| `CostTotals.StageSourceMeaning` | scripts/cost-report/lib/aggregate.ts:56-110 | what a reported stage's source says of all its rows; it counts unpriced calls exactly when it says so |
| `CostTotals.StageTotals.AddRow` | scripts/cost-report/lib/aggregate.ts:76-96 | the stage grows by exactly what the row contributes, INR stays USD times the rate, and the answer names the model exactly when the row counts as unpriced |
| `CostTotals.StageTotals.Merge` | scripts/cost-report/lib/aggregate.ts:98-110 | the stage grows by exactly what the other stage holds, and INR stays USD times the rate |
| `CostPrices.PriceOfKind` | scripts/cost-report/lib/rates.ts:80-95 | n tokens of one kind and none of another cost n millionths of that kind's rate: input, output, cache reads and cache writes at their own rate or the fallback, 5-minute cache writes at 1.25 of the input rate |
| `CostPrices.PricesAdd` | scripts/cost-report/lib/rates.ts:80-95 | prices add over token counts whose 5-minute writes are no more than their writes |
| `CostPrices.SurplusIsFree` | scripts/cost-report/lib/rates.ts:85-87 | 5-minute writes beyond the writes cost nothing |
| `CostPrices.CostMeaning` | scripts/cost-report/lib/rates.ts:103-128 | exactly when a row costs what was recorded, what its tokens cost at its model's rate, or counts as unpriced |
| `CostPrices.SlugMeaning` | scripts/cost-report/lib/rates.ts:22-24 | a model's slug, character by character: lower case, and a dash for whatever is no letter, digit, dot, underscore or dash |
| `CostPrices.RateMeaning` | scripts/cost-report/lib/rates.ts:22-77 | which rate a model finds: that of its slug, if it has a name and the table has the slug |
| `CostPrices.StageMeaning` | scripts/cost-report/lib/aggregate.ts:76-96 | each field of a stage from its rows: the calls, the failed ones, each token count, the money, the models, each once |
| `CostGrouping.SameRootIffLinked` | scripts/cost-report/lib/aggregate.ts:143-150 | two rows' keys have one root iff a chain of Generation rows sharing a document, run or intake id links the rows |
| `CostGrouping.FlattenIsPermutation` | scripts/cost-report/lib/aggregate.ts:245-285 | filing rows under groups loses and doubles no row |
| `CostGrouping.PlacePreflight` | scripts/cost-report/lib/aggregate.ts:262-285 | the preflight loop puts each row where the single-draft rule says and moves nothing else |
| `CostReport.SameDraftIffLinked` | scripts/cost-report/lib/aggregate.ts:233-261 | each Generation and intake row is in exactly one draft; two are in one draft iff they are linked |
| `CostReport.PreflightIffOnlyDraft` | scripts/cost-report/lib/aggregate.ts:262-285 | a preflight row is in a draft iff its user appears in that draft and no other, else in its user's unattributed list |
| `CostReport.GroupedTotals` | scripts/cost-report/lib/aggregate.ts:287-320 | the drafts' body and intake totals are the sums of all rows grouped, whatever the grouping |
| `CostReport.PreflightTotals` | scripts/cost-report/lib/aggregate.ts:287-320 | the drafts' and unattributed preflight totals are the sum of all preflight rows |
| `CostReport.BuildWindow` | scripts/cost-report/lib/aggregate.ts:233-320 | the whole of buildWindow against these specifications: drafts in the order of their first times (those of one time as their groups came), each with its linkage, intake ids and first time, unattributed list and totals |
| `CostWindows.AssignAuxRows` | scripts/cost-report/lib/aggregate.ts:354-393 | every fetched aux id stays in exactly the window that owns it, as its first row says: the first whose Generations name its intake, else the first that fetched it; ids fetched by several windows are listed, each once, with those windows and the owner |
| `CostWindows.AuxCountedOnce` | scripts/cost-report/lib/aggregate.ts:354-393 | after the assignment the counted aux ids are the fetched ones, each once in the whole report; the rows too, where an id is one document |
| `CostWindows.OneOwner` | scripts/cost-report/lib/aggregate.ts:354-393 | no aux id has two owning windows |
| `CostWindows.OverlappingWindows` | scripts/cost-report/lib/aggregate.ts:323-335 | the pairs listed are exactly the pairs of windows that overlap |
| `CostWindows.OverlapMeansSharedInstant` | scripts/cost-report/lib/aggregate.ts:323-335 | the overlap test fires iff some instant lies in both windows |
| `CostWindows.GenerationsCountedOnce` | scripts/cost-report/lib/aggregate.ts:323-335 | with no overlapping windows no Generation row is counted twice |
| `CostWindows.BuildReport` | scripts/cost-report/lib/aggregate.ts:395-446 | the grand totals are the sums over all Generation rows and over the aux ids counted once; each window is reported as buildWindow specifies; the overlaps and shared rows are listed |
| `AccountErase.InvPlay` | apps/auth/src/services/account-erase.service.ts:230-434 | the protocol's invariant holds after any history of any number of runs, failures and crashes |
| `AccountErase.StageNeverAhead` | apps/auth/src/services/account-erase.service.ts:342-397 | the stored stage names no step that has not completed since the lock, even when a slower run moves it back; the account stays inactive |
| `AccountErase.DeletedOnlyAfterRecheck` | apps/auth/src/services/account-erase.service.ts:398-434 | the User record is deleted only after all four steps and then a second erase of drafting and of billing, in that order |
| `AccountErase.DeleteRowOutlivesUser` | apps/auth/src/services/account-erase.service.ts:188-214 | once the User record is gone an account_delete row has been written, and is there until two years after that |
| `AccountErase.DeleteRowIffStanding` | apps/auth/src/models/AuditLog.model.ts:67 | in every history an account_delete row is there iff the last that happened to it was its writing |
| `AccountErase.RowCanExpireFirst` | apps/auth/src/models/AuditLog.model.ts:67 | for every later time there is a history that leaves neither the User record nor the row |
| `AccountErase.RowsLeftAreNewer` | apps/auth/src/services/account-erase.service.ts:398-434 | any drafting or billing row left was written after the deleting run's second erase of that service |
| `AccountTraces.AuditLeftIsNewer` | apps/auth/src/services/account-erase.service.ts:188-214 | once the User record is gone, each audit row but payments and the deletion was written after an audit step deleted those, indeed after every one that did, and each of these with details after one that took the details off |
| `AccountTraces.KeysLeftAreNewer` | apps/auth/src/services/account-erase.service.ts:174-186 | and each session or Redis key left was written after the step that emptied those stores |
| `AccountTraces.StepIsStored` | apps/auth/src/services/account-erase.service.ts:342-397 | a run that has completed a step stores it, and nothing else of the User; the next run to read the User begins with the step after it |
| `AccountTraces.PaymentsStay` | apps/auth/src/services/account-erase.service.ts:188-214 | no erase, however often it runs, takes a payment off the audit log; only its two years do |
| `AccountTraces.DoneMeansGone` | apps/auth/src/services/account-erase.service.ts:317-434 | a run that answers done found the User record gone or deleted it |
| `AccountTraces.GoneAnswer` | apps/auth/src/services/account-erase.service.ts:329-336 | a run that finds no User record answers done iff the last that happened to the account_delete row is its writing |
| `AccountTraces.FailureIsRecorded` | apps/auth/src/services/account-erase.service.ts:282-306 | a failed run of a locked account counts one attempt more, with its time |
| `AccountErase.RetryFinishes` | apps/auth/src/services/account-erase.service.ts:317-434 | whatever happened before, one more run without failures deletes the User record |
| `AccountErase.Stores.RunAccountErase` | apps/auth/src/services/account-erase.service.ts:317-434 | the method's steps are a run of the state machine, and its answer is how that run ended |
| `EraseSweep.PassedOver` | apps/auth/src/services/account-erase.service.ts:518-539 | a sweep that passes over a waiting erase tries a full batch, each of which it settles anew or leaves without a record |
| `EraseSweep.RunSweep` | apps/auth/src/services/account-erase.service.ts:518-539 | a sweep's attempts, and its counts of finished and pending erases |
| `EraseSweep.ErasedCount` | apps/auth/src/services/account-erase.service.ts:518-539 | the finished erases that a sweep counts are as many as the attempts that ended so |
| `EraseSweep.EveryEraseIsTried` | apps/auth/src/services/account-erase.service.ts:282-306 | each pending erase is tried once limit times sweeps reaches the number ever pending plus the sweeps' failed attempts without a record, whatever arrives, tried or not, and whatever is tried outside the sweeps |
| `EraseSweep.FairnessIsTight` | apps/auth/src/services/account-erase.service.ts:282-306 | for every batch size and any number of sweeps with unrecorded failures, one attempt less does not suffice |
| `EraseSweep.UnrecordedFailuresStarve` | apps/auth/src/services/account-erase.service.ts:317-341 | unrecorded failures can starve an erase for any number of sweeps |
| `BlankFinder.FindBlanks` | packages/shared/src/blanks.ts:213-273 | the blanks are in order, not empty, disjoint, and exactly the markers, unexempt dates and free runs |
| `BlankFinder.UnderscoresAreRuns` | packages/shared/src/blanks.ts:83 | the underscore expression finds exactly the maximal runs of three or more |
| `Patterns.SpacesAre` | packages/shared/src/blanks.ts:86 | the units that `\s` matches |
| `BlankShapes.ScanMeaning` | packages/shared/src/blanks.ts:80-93 | each of the three scans finds a span iff it is the longest match of its expression there and starts outside every match found before: the four shapes of a marker, the day-of date, the underscores |
| `BlankExceptions.ExemptDateMeaning` | packages/shared/src/blanks.ts:95-184 | a date is exempt iff "this" stands directly before it on its line, or its paragraph opens as a signing block, or follows the heading of one |
| `BlankRegistry.RegistryNumberMeaning` | packages/shared/src/blanks.ts:109-152 | the registry's number is the underscores of the first "No. ___ of", iff it stands before both the separator line and paragraph 1, one of which there is, with neither "in" nor "arising out of" before it on its line |
| `BlankRegistry.OnSignatureMeaning` | packages/shared/src/blanks.ts:85-86 | a run stands on a signature line iff its line is blank space, three underscores or more, and only more of both |
| `BlankFinder.RunCoveredUnlessExcepted` | packages/shared/src/blanks.ts:213-273 | every maximal run of underscores is inside a blank iff none of the stated exceptions covers it |
| `Markup.ProjectContent` | packages/shared/src/blanks.ts:321-365 | the loop gives the text and the source of each unit as the tokens of the content say |
| `Markup.CellsOrdered` | packages/shared/src/blanks.ts:321-365 | sources come in the content's order; two are the same only for the two units of one entity |
| `Markup.WrittenIsProjected` | packages/shared/src/blanks.ts:321-365 | no written text of the content is lost from the text |
| `Markup.EntityAtAgrees` | packages/shared/src/blanks.ts:292-314 | an entity is read from its own units alone |
| `MarkupShapes.TokenMeaning` | packages/shared/src/blanks.ts:290-365 | what a reader takes from the start of a content: a tag to its first '>', with a newline iff BLOCK_TAG finds it, an entity that ENTITY matches and that stands for something, or one unit |
| `MarkupShapes.HtmlMeaning` | packages/shared/src/blanks.ts:327 | a content is read as markup iff its first unit that is no space is '<' |
| `MarkupShapes.CharacterIsRead` | packages/shared/src/blanks.ts:302-313 | every code point written as a decimal or a hex numeral is read back as that character; 0 and numbers past the last code point are not |
| `MarkupShapes.ZeroInFront` | packages/shared/src/blanks.ts:302-313 | zeros in front of a numeral change nothing |
| `MarkupShapes.NamedMeaning` | packages/shared/src/blanks.ts:293-312 | six names stand for a character, and no other does |
| `BlankRanges.RangesOf` | packages/shared/src/blanks.ts:393-411 | one blank's ranges hold exactly the sources of its text, with something between any two, each whole text tokens |
| `BlankRanges.RangesOfAll` | packages/shared/src/blanks.ts:392-411 | all ranges hold exactly the blanks' sources, and are in order when the blanks are |
| `BlankMarker.StripInserted` | packages/shared/src/blanks.ts:373-375 | stripping the marks gives the content back |
| `BlankMarker.MarksAlternate` | packages/shared/src/blanks.ts:414-421 | opening and closing marks strictly alternate |
| `BlankMarker.KeepsAll` | packages/shared/src/blanks.ts:412-421 | ranges in order are never skipped |
| `BlankMarker.MarkBlanks` | packages/shared/src/blanks.ts:383-423 | for every content and finder: the round trip, alternation, marks around whole text tokens only, and only around blanks' sources |
| `BlankMarker.MarkDraft` | packages/shared/src/blanks.ts:383-423 | with findBlanks, a place of the content is marked iff it is the source of text in a blank |
| `BlankNesting.MarkupNests` | packages/shared/src/blanks.ts:377-428 | marked content nests exactly as the content does, whatever the tags mean, when every '<' before the last marked range is closed or the marks count as tags |
| `BlankUnclosed.NestsIffClosed` | packages/shared/src/blanks.ts:377-428 | with real tags put in, HTML content nests as before under every meaning of its tags iff every '<' before the last marked range is closed |
| `BlankUnclosed.FirstRangeUnnests` | packages/shared/src/blanks.ts:337-346 | blanks after an unclosed '<': the content nests, the marked content does not |
| `BlankExample.UnclosedDraftUnnests` | packages/shared/src/blanks.ts:383-428 | such a draft, with the blanks that findBlanks finds in it |
| `BlankNesting.TagsForMarks` | packages/shared/src/blanks.ts:426-428 | each mark becomes its tag in its place, and nothing else changes, for any two tags |
| `PaymentsBackfill.Billing.StampGrant` | apps/billing/scripts/backfill-payments.ts:302-316 | the stamp is set only on a grant without one |
| `PaymentsBackfill.Billing.RunPaymentsBackfill` | apps/billing/scripts/backfill-payments.ts:212-358 | the two passes, their counts, lists and writes against the run's specification |
| `PaymentsReport.ReportMeaning` | apps/billing/scripts/backfill-payments.ts:239-358 | of any run, from the payments and the collections before it: refundedKept lists the refunded payments with a context, unattributedIds those without one, recorded counts those whose row held Ink, written those that get a row, attributed and ambiguous together the open plan payments and those whose write failed |
| `PaymentsReport.ListedMeaning` | apps/billing/scripts/backfill-payments.ts:239-358 | an id is in such a list iff a payment of that id fits |
| `PaymentsReport.ContextMeaning` | apps/billing/src/services/payment-record.service.ts:112-185 | whom and what a payment is for: its own row, else its notes, order or claim, else its subscription with the Ink of the one grant that names it |
| `PaymentsReport.GrantMeaning` | apps/billing/scripts/backfill-payments.ts:369-386 | a payment gets a grant iff that is its subscription's only unstamped one, no payment of the subscription holds Ink, and the payment is its only charge |
| `PaymentsReport.AttributedMeaning` | apps/billing/scripts/backfill-payments.ts:281-330 | attributed and ambiguous by payment: who would get a grant as the collections stand; in an applied run, less the overtaken |
| `PaymentsReport.AppliedRows` | apps/billing/scripts/backfill-payments.ts:281-352 | after an applied run each listed payment's row is what it was, or settled with the Ink of the grant it won or of its context; other rows are as they were |
| `PaymentsReport.UpsertMeaning` | apps/billing/src/services/payment-record.service.ts:346-440 | writing a payment's row keeps user, kind and subscription once set, never lowers Ink, settles it, and touches no other row |
| `PaymentsDryRun.DryRunWritesNothing` | apps/billing/scripts/backfill-payments.ts:208-220 | a dry run writes nothing, whatever fails |
| `PaymentsDryRun.DryRunPredictsApply` | apps/billing/scripts/backfill-payments.ts:239-357 | dry run and apply give the same counts and ids iff no new payment has an invalid amount and no attributed one comes after an unsettled row of its subscription; each count's difference is exactly the number of such payments |
| `PaymentsDryRun.TwoCharges` | apps/billing/scripts/backfill-payments.ts:369-386 | a subscription with two known payments is attributed to neither, whatever the rows say |
| `PaymentsDryRun.OvertakenExists` | apps/billing/scripts/backfill-payments.ts:283-300 | collections and payments, with no answer or another one for the first payment's subscription and at most one invoice, in which the second comes after such a row |
| `PaymentCredits.PlayKeepsBounded` | apps/billing/scripts/backfill-payments.ts:283-352 | over overlapping and interrupted runs and the webhook's grants, each read and write apart, the Ink of a payment is the delta of a grant that names it, and no grant that covers Ink given before is taken |
| `PaymentCredits.StartIsBounded` | apps/billing/scripts/backfill-payments.ts:281-300 | collections without stamps are such a start, when the Ink their plan payments hold is covered by their subscription's grants |
| `PaymentCredits.PlayKeepsStamps` | apps/billing/scripts/backfill-payments.ts:302-316 | a stamp once set is never changed |
| `PaymentCredits.CreditedWithinGranted` | apps/billing/scripts/backfill-payments.ts:281-342 | the Ink that all of a subscription's payments hold, those recorded before grants carried ids included, never exceeds what it was granted |
| `PaymentStamps.PlayKeepsSafe` | apps/billing/scripts/backfill-payments.ts:283-316 | over the same histories no payment is named by two grants, as long as each of the webhook's grants is timely |
| `PaymentStamps.GrantSurvivesIff` | apps/billing/scripts/backfill-payments.ts:283-316 | the invariant behind that survives a webhook's grant exactly when no grant names the payment yet, no run has chosen an old one for it, and, if its row or a run shows no Ink of it, there is no old one to choose |
| `PaymentStamps.RaceExists` | apps/billing/scripts/backfill-payments.ts:302-316 | a history in which the webhook grants a payment between a run's count of charges and its stamp: two grants name the payment |
| `PaymentStamps.StepIsPlayed` | apps/billing/scripts/backfill-payments.ts:283-352 | pass 2 for a payment is a sequence of the state machine's actions |
| `PaymentStamps.RerunAfterStop` | apps/billing/scripts/backfill-payments.ts:302-316 | after a stop between stamp and row, a rerun credits the payment iff it had no row |
| `PaymentStamps.StoppedRunExists` | apps/billing/scripts/backfill-payments.ts:302-316 | from a plain start, a run that stops there beside a row without Ink, and what the rerun leaves |
| `FreeSeed.GainsAtMostOnce` | apps/auth/scripts/backfill-free-seed.ts:382-417 | whatever runs, stops, spends and grants there are, a user gains the seed at most once |
| `FreeSeed.DoneLeavesTheDrift` | apps/auth/scripts/backfill-free-seed.ts:297-417 | at 'done' balance and ledger differ by what moved between the two reads; they agree iff nothing did |
| `FreeSeed.GroupIsRight` | apps/auth/scripts/backfill-free-seed.ts:336-342 | without such movement the group written is the right one |
| `FreeSeed.OneWriteWins` | apps/auth/scripts/backfill-free-seed.ts:346-417 | of overlapping runs one write sets freeSeedAt; all that count as done did the same |
| `FreeSeedWrites.SeededWhileEligible` | apps/auth/scripts/backfill-free-seed.ts:346-370 | in every history freeSeedAt was set by one write, made while the apply-time guards matched |
| `FreeSeedWrites.RunDoesTheDeed` | apps/auth/scripts/backfill-free-seed.ts:297-417 | a run alone gives seed and row to an eligible user without either, the row to one whose seed landed, and nothing to anyone else |
| `FreeSeedWrites.GoneWritesNothing` | apps/auth/scripts/backfill-free-seed.ts:346-381 | a write after the guards ceased to match, or after another's, changes nothing |
| `FreeSeed.HealReconciles` | apps/auth/src/services/credit-bonus.service.ts:209-228 | a run cut off before its ledger row is made good by the next sign-in |
| `FreeSeed.SplitReadsMisjudge` | apps/auth/scripts/backfill-free-seed.ts:325-342 | movement of 10 units between the reads pays the seed twice or withholds it |
| `FreeSeedRun.WorkIsGuarded` | apps/auth/scripts/backfill-free-seed.ts:297-356 | a user is on the work list in a group iff a readable candidate of that id passes every guard and has that group's exact shape |
| `FreeSeedRun.ClassMeaning` | apps/auth/scripts/backfill-free-seed.ts:256-345 | each of the ten groups, by what its members are |
| `FreeSeedRun.CountMeaning` | apps/auth/scripts/backfill-free-seed.ts:503-520 | each group's count is the number of readable candidates in it |
| `FreeSeedRun.SeedRun.Go` | apps/auth/scripts/backfill-free-seed.ts:442-640 | each count of the run is the number of users it says, and a refused or dry run writes none |
| `FreeSeedRun.CountsAddUp` | apps/auth/scripts/backfill-free-seed.ts:503-631 | candidates + A + B equals the ten groups + seeded_A + row_only_B + already_done + failed |
| `PasswordLimiter.ComparesBounded` | apps/auth/src/services/password-change-rate-limit.ts:36-58 | per window at most five attempts compare, plus one per DECR of an earlier window's attempt |
| `PasswordLimiter.AdmittedIff` | apps/auth/src/services/password-change-rate-limit.ts:36-51 | exactly when an attempt is admitted |
| `PasswordLimiter.StrayReopensWindow` | apps/auth/src/services/password-change-rate-limit.ts:53-58 | in a full window such a DECR lets one more in |
| `PasswordLimiter.BoundIsMet` | apps/auth/src/services/password-change-rate-limit.ts:53-58 | a history from the start in which six passwords are compared in one window |
| `PasswordLimiter.CountIsStanding` | apps/auth/src/services/password-change-rate-limit.ts:36-58 | in every history the counter is the hits that stand in the window less such DECRs |
| `PasswordWindows.ComparesInPeriod` | apps/auth/src/services/password-change-rate-limit.ts:36-64 | while no TTL runs out at most five attempts compare, five more for each DEL and one more for each such DECR |
| `PasswordWindows.DelWipesHits` | apps/auth/src/services/password-change-rate-limit.ts:55-59 | a history without an expiry and without such a DECR in which six passwords are compared |
| `PasswordLimiter.RefusedNeverStands` | apps/auth/src/services/password-change-rate-limit.ts:45-49 | whatever other attempts do in between and later, a refused attempt's hit is given back, its DECR takes one hit of its own window or is such a DECR, and its password is never compared |
| `PasswordLimiter.ReserveLeavesTtl` | apps/auth/src/services/password-change-rate-limit.ts:41-46 | in every history, an attempt that asks for the TTL and sets it within one window leaves no key without a TTL |
| `PasswordLimiter.AtMostOneReplaces` | apps/auth/src/services/auth.service.ts:737-751 | of changes that compared against the same hash at most one writes |
| `PasswordWrites.RightPasswordWrites` | apps/auth/src/services/auth.service.ts:736-751 | an attempt that compares right against the hash it loaded, which still stands and belongs to an account, replaces exactly that hash |
| `PasswordWrites.ChangeClears` | apps/auth/src/services/auth.service.ts:712-714 | and then clears the counter |
| `PasswordWrites.ReplacedWasRight` | apps/auth/src/services/auth.service.ts:736-751 | in every history whoever replaced a hash had loaded it from an account and compared right against it |
| `PasswordWrites.WrongKeepsHit` | apps/auth/src/services/auth.service.ts:710-714 | a wrong compare replaces nothing and keeps its hit |
| `PasswordWrites.NoAccountGivesBack` | apps/auth/src/services/auth.service.ts:710-714 | an attempt without an account gives its hit back and compares nothing |
| `PasswordLimiter.Limiter.Reserve` | apps/auth/src/services/password-change-rate-limit.ts:32-51 | the operation alone: admitted iff fewer than five are counted, and the key has a TTL after it |
| `PasswordLimiter.Limiter.Release` | apps/auth/src/services/password-change-rate-limit.ts:55-59 | the hit is given back, and no negative or zero counter is left behind |
| `PasswordLimiter.Limiter.Reset` | apps/auth/src/services/password-change-rate-limit.ts:61-64 | the counter is gone |
| `PasswordLimiter.ReserveIsPlayed` | apps/auth/src/services/password-change-rate-limit.ts:36-52 | the attempt's actions with none in between do to the key what the operation alone is proved to do, and admit alike |
| `PasswordLimiter.ReleaseIsPlayed` | apps/auth/src/services/password-change-rate-limit.ts:55-59 | so do the actions of giving a hit back |
| `InternalPaths.HasInternalSegment` | apps/gateway/src/app.ts:65-79 | the bounded decode loop against its specification |
| `InternalSegments.InternalMeaning` | apps/gateway/src/app.ts:75-78 | a path is caught in plain sight iff one of its segments, cut at slashes and backslashes, up to a ';' and trimmed, is `internal` in any case |
| `InternalSegments.RawMeaning` | apps/gateway/src/app.ts:71 | a path that will not decode is caught in its raw form iff the expression finds it |
| `InternalPaths.DecodeKeepsInternal` | apps/gateway/src/app.ts:65-79 | a decode pass keeps an internal segment |
| `InternalPaths.DecodeIffEncoded` | apps/gateway/src/app.ts:68-70 | a decode pass gives a text iff it was given a percent-encoding of it, of any units in either case of hex, UTF-8 sequences included |
| `InternalPaths.NestedIsCaught` | apps/gateway/src/app.ts:53-79 | a path with an internal segment, percent-encoded up to three times over in any way, is caught |
| `InternalPaths.CaughtIff` | apps/gateway/src/app.ts:65-79 | caught are exactly such paths, and encodings, up to twice over, of what is no percent-encoding and looks internal as it is |
| `BlindWriter.SeededShuffle` | scripts/ab/blind-writer.ts:167-175 | the in-place rounds against their specification, for every generator |
| `BlindWriter.ShuffleIsPermutation` | scripts/ab/blind-writer.ts:167-175 | the shuffle is a permutation |
| `BlindWriter.AnyOrderComesOut` | scripts/ab/blind-writer.ts:167-175 | any order of up to 2^32 items can come out of the shuffle: for each there is a generator that gives it |
| `BlindWriter.PickMeaning` | scripts/ab/blind-writer.ts:171 | the place picked is the part of 0 to i, cut evenly, in which the generator's output falls |
| `BlindWriter.ShuffleIsOrder` | scripts/ab/blind-writer.ts:367-373 | the second shuffle, of the places, gives each place one M-id |
| `BlindWriter.IdsSortByIndex` | scripts/ab/blind-writer.ts:181-183 | ids of a run differ and sort as strings in the order of their index |
| `BlindWriter.WriteBlind` | scripts/ab/blind-writer.ts:366-417 | for any two generators: every draft is in exactly one key entry, under a D-id in the first shuffle's order; the M-ids go to the drafts in the second's; the metrics rows are those of the M-ids, each what its entry's draft gives; no entry or row more |
| `AbSpend.StagesAddUp` | scripts/ab/run-ab.ts:633-645 | each call of an arm is counted once, as body or other |
| `AbSpend.AbRun.RunAll` | scripts/ab/run-ab.ts:925-1004 | the running total is the cost of every call logged; exactly which matters are run |
| `AbSpend.SpendIsBounded` | scripts/ab/run-ab.ts:925-1004 | in real mode the spend stays within the cap when each matter keeps to its worst case, else passes it by at most the last matter's excess |
| `AbSpend.AllAreRun` | scripts/ab/run-ab.ts:925-1004 | with every arm clean, tokens left and room under the money cap, every matter is run |
| `AbSpend.RunStopsInTime` | scripts/ab/run-ab.ts:925-1004 | no matter is run after a failed arm, after the spend passed the cap, or once the tokens reached theirs |
| `AbSpend.UsedMeaning` | scripts/ab/run-ab.ts:938-974 | the tokens counted are those of all calls but the arms' calls outside the body |

## Left out

- Mongo, Redis, Razorpay, HTTP, clocks and the settings store: each call is one atomic action or an input, with its failures.
- Cost report: labels, time bounds, lists of document, run and user ids, revisions, missing rates, notes and the rendering; draft references name their group by its root.
- Account erase: a run's first reads, of the User and of the audit log, are one action, and the upsert of the account_delete row is atomic; session and cache keys, the subscription check before closing, the dry run, timers; `PATCH /admin/users/:userId/status` is not part of this model, so "stays inactive" is about this service's own writes.
- Blanks: labels, context words and counts of findBlanks; the choice of TipTap or plain content beyond its first character; case folding outside ASCII.
- `BlankShapes.ScanMeaning`: an expression is its language; that a matcher which tries alternatives in order and repeats greedily finds the longest match of these three is not proved.
- `BlankNesting.MarkupNests`: nesting is judged with the tokens that projectContent reads, not with a browser's HTML parser.
- Payments backfill: sorting by creation time (the results hold for payments in any order), status words, log lines, and context fields that no decision reads.
- `PaymentsDryRun.DryRunPredictsApply`: no payment is listed twice and no call fails in either run; a call that fails in one of two runs makes any two runs differ.
- `PaymentCredits.PlayKeepsBounded`: the webhook grants no payment that was recorded with Ink before grants carried payment ids.
- `PaymentCredits.StartIsBounded`: the rows of payments with Ink name their subscription; the guard that looks for such payments finds them by it.
- `CostTotals.StageTotals.AddRow`: the set of unpriced models that the report keeps from these answers is not modelled.
- `AccountErase.Stores.RunAccountErase`: the counts, the name of the failed step and notFound of its answer.
- `EraseSweep.RunSweep`: the query's answer and how each erase ends are inputs; the theorems are for all of them.
- `BlankFinder.FindBlanks`: the label, text and context words of each blank.
- `FreeSeedRun.SeedRun.Go`: how each user's apply ends is an input; one user's writes are the state machine of `FreeSeed.dfy`.
- Free-seed backfill: the signs of a paid plan are one flag, months and date sources are not counted, id files are not written; referral grants, which write balance and ledger apart, are outside "spends and grants that move both together".
- Password change: bcrypt is a comparison whose answer is an input, a new hash is one never stored before; sessions are not modelled.
- Gateway: the rest of the proxy; `toLowerCase` outside ASCII.
- Blind writer: the generator itself (any sequence of 32-bit outputs), scrubbing and sealing; A/B run: prompts, isolation checks, estimates and the arm order.
- The consent history pipeline, the profile's court rule, the email worker, OAuth routes, argument parsers and text rendering: they would add only easy members.
