# Matters: verified models of its ingestion, harness, boundary and ledger tools

A Dafny model of six parts of the Matters repository, with proofs of what each of them is for.
`dafny verify dfyconfig.toml` checks the whole project.

**The Gmail page-chain reconciler.** Connector pages are audited (`PageChain`): every message is normalised
(`MessageRows`), repeated observations of one message are merged (`RowMerge`), the cursor chain is verified, and the
pages are rewritten so that each message stands on one page. `PageAdapter` files the rewritten pages under their cursors
and serves them; `SearchCapture` is a second producer of pages; `Coverage` recounts audited ids. The methods follow the
scripts' loops and are proved equal to specification functions; the laws are proved about those functions:

- `RowMergeLaws`: a row is read as a set of *facts* (a present value in a slot). A merge is the union of facts, it fails
  exactly when two facts clash, and the facts determine the merged row up to `snippet`. Hence the exact conflict
  condition for a group, and independence from arrival order and repetition. Two exceptions are stated exactly: when
  swapping two rows changes the result (`SwapMatters`, only through `snippet`), and when a row merged with itself comes
  back unchanged (`SelfMerge`: the merge recomputes the identity-only mark, sorts, and joins the attachments).
- `MessageFields`, `PageFields`, `AdapterFields`, `CaptureFields`: every field of a normalised row, a merged row, a
  rewritten page, a report, a served page and a captured page, read directly from the keys supplied, and which error is
  raised where several apply.
- `PageChainLaws`, `PageProjection`: exactly when an audit succeeds, conservation of messages, and the audit as a
  projection.
- `PageAdapterLaws`, `SuppliedSizes`: exactly when the adapter opens and when a walk from the empty cursor visits all
  pages in order. The audit alone does not make it open: the read manifest refuses null or empty revisions and a start
  date that is none, and the export refuses a full message with a negative attachment size. A verified chain that opens
  leads from page to page to its end; an unverified one does exactly when every page that states its requested cursor
  names its predecessor's next. The walk of such a chain takes its pages in order, up to the first with more than 500
  messages, which the adapter rejects; it ends at a terminal page, and not at a coverage gap, exactly when the report is
  complete. `CalendarDates` has the dates; what else of ISO form is read as a date is a
  parameter.
- `SearchCaptureLaws`: capture, audit and walk together. The capturer checks the form of its start date, not that the
  day exists (`Examples.NoSuchDay`), and not how many ids one call found (`Examples.TooManyForOnePage`).

**The finite-transition harness** (`Harness`, `HarnessLaws`, `HarnessReplay`, `HarnessSound`). The step machine with its optional hazard
and the four trace invariants, over runs of any length. The main result is the cutoff theorem: checking sequences up to
length two is complete, for every specification and every hazard; length one is not. `AtMostOnceIff` and `OrderFreeIff`
say exactly which specifications never repeat an event and which are insensitive to order, and
`HarnessSound.AlwaysPassesIff` which ones the sound harness passes on every run.

**The decoder closure of the boundary scan** (`BackslashEscapes`, `Closures`, `TextVariants`). The frontier search equals plain
reachability by at most three decoder applications; the backslash decoder is modelled to the character. Texts are
sequences of code points, since decoding may produce surrogates.

**The package digest** (`PackageDigest`, `PackageDigestLaws`). The canonical listing over a tree and over the archive
built from it; the hash is any function to a fixed-length string without tab or line feed, so what is proved is that the
listing, the text under the final hash, loses nothing as long as no path holds a line feed (`ListsLikeOneFile` shows
what happens otherwise).

**The ledger rebase** (`LedgerRows`, `LedgerRowLaws`, `LedgerRebase`, `LedgerRebaseLaws`, `LedgerRebaseEffect`,
`LedgerFaults`, `LedgerFields`, `LedgerNotes`, `LedgerWording`). The class `Ledger` is edited in place, step by step; each step
is tied to a function on its state. The prose the script writes is a parameter (`Script`), so the results hold for every
wording; the one condition on it, `Lawful`, is proved of the lists the script ships.

**The ownership check of the test plan** (`OwnershipCover`). The loops growing maps of owners, and what their flags
decide.

`Examples` holds concrete inputs: one for each law that has an exception, and inputs that show the main laws apply to
something. `Basics` and `Ordering` hold shared value types, Python's order on strings and `sorted` on a set.

## Model

| member | source | states |
|---|---|---|
| Examples.SnippetOrderShows | scripts/audit_gmail_page_chain.py:208-222 | two observations whose merge differs with the order, in the snippet alone |
| Examples.MarkIsDropped | scripts/audit_gmail_page_chain.py:224-234 | a complete observation marked identity-only does not survive a merge with itself |
| Examples.UnverifiedWalkStops | scripts/ingest_gmail_pages.py:71-104 | an audited, unverified partial chain whose adapter opens although no order of its pages is a finished walk: the walk asks for a cursor not supplied |
| Examples.NoSuchDay | scripts/capture_gmail_search_chain.js:24-29 | with 30 February as its start date a capture is accepted and audited as complete, and no adapter is built |
| Examples.TooManyForOnePage | src/matters/providers/gmail/adapter.py:376-377 | 501 ids found by one call are captured, audited as complete and open an adapter, whose walk takes no page |
| Examples.UndersizedIsRefused | src/matters/providers/gmail/adapter.py:150-152 | a full message with an attachment of size -1 is normalised by the audit and refused by the export |
| Examples.SomeCaptureAudits | scripts/capture_gmail_search_chain.js:85-155 | there is a capture whose pages the audit accepts and whose adapter opens |
| Examples.SomeLedgerRebases | scripts/rebase_autonomy_ledger.py:783-1225 | for every script there is a ledger it rebases |
| MessageRows.NormaliseGivesNormal | scripts/audit_gmail_page_chain.py:83-136 | a normalised row has an id, no blank optional text, the status its mark and body give it, and is never both identity-only and body-bearing |
| MessageFields.NormalisedFields | scripts/audit_gmail_page_chain.py:70-136 | each field of a normalised row from the fields supplied: which key wins, what is dropped, the identity-only rule, and the status: identity-only if marked, else full with a body and metadata-only without |
| MessageFields.NormaliseFails | scripts/audit_gmail_page_chain.py:71-108 | which error a row raises: no id, then a time out of range, then a body on an identity-only message, then an attachment without id, and none otherwise |
| MessageFields.RicherWins | scripts/audit_gmail_page_chain.py:139-234 | each field of a merged row but the attachments: the richer row is asked first, the richness being compared as body, thread and time, labels, texts, attachments, the left row winning a tie; the mark and the status are recomputed from the merged fields |
| MessageFields.JoinFails | scripts/audit_gmail_page_chain.py:158-202 | which error a merge raises: other ids, then the first differing field in the compared order, then the first attachment contradicting an earlier one |
| MessageRows.Renormalise | scripts/audit_gmail_page_chain.py:83-136 | normalising a row that is already normal, fed back as a dictionary, returns it unchanged; the dictionary names the status |
| RowMerge.MergeAttachments | scripts/audit_gmail_page_chain.py:152-180 | the loop over both lists yields one attachment for each id in id order, each filled from all its observations, or the first conflict |
| RowMerge.MergeMessageRows | scripts/audit_gmail_page_chain.py:183-235 | the merge computes `Merge`: identity mismatch, first conflicting field, attachment conflict, or the joined row |
| RowMergeLaws.CompatibleIffNoClash | scripts/audit_gmail_page_chain.py:49-50 | two rows agree on every compared field and attachment exactly when no present value in one clashes with one in the other |
| RowMergeLaws.CollectMeaning | scripts/audit_gmail_page_chain.py:158-180 | attachments merge exactly when those sharing an id agree, and then each result summarises all of them; a size of 0 counts as present |
| RowMergeLaws.JoinSucceedsIff | scripts/audit_gmail_page_chain.py:152-207 | two rows of one message merge exactly when they are compatible and neither contradicts itself in its own attachments |
| RowMergeLaws.JoinIsUnion | scripts/audit_gmail_page_chain.py:208-235 | a merged row carries exactly the union of the facts, is in canonical form, and stays normal |
| RowMergeLaws.FactsDetermineRow | scripts/audit_gmail_page_chain.py:208-235 | canonical rows of one message with the same facts are equal up to `snippet` |
| RowMergeLaws.GroupMerges | scripts/audit_gmail_page_chain.py:183-235 | two or more observations of one message fold without error exactly when no two of them carry different present values; the result carries all their facts |
| RowMergeLaws.OrderIndependent | scripts/audit_gmail_page_chain.py:183-235 | neither arrival order nor repetition changes the outcome: a conflict either way, or the same row up to `snippet` |
| RowMergeLaws.FoldSnippet | scripts/audit_gmail_page_chain.py:208-222 | a fold has a snippet exactly when an observation has one, and it is the snippet of one of them |
| RowMergeLaws.OrderFreeWithSnippet | scripts/audit_gmail_page_chain.py:183-235 | where no two observations carry different snippets, order and repetition leave the whole row unchanged |
| RowMergeLaws.SwapMatters | scripts/audit_gmail_page_chain.py:208-222 | swapping two rows changes the merge exactly when they are equally rich and carry different snippets |
| RowMergeLaws.SelfMerge | scripts/audit_gmail_page_chain.py:208-235 | merging a row with itself gives it back exactly when it already has the canonical form, which an explicit identity-only mark on complete fields breaks |
| PageChain.VerifyCursors | scripts/audit_gmail_page_chain.py:265-292 | the cursor loop raises the first fault of the chain in page order, or says whether every page is linked to its predecessor |
| PageChain.MergePages | scripts/audit_gmail_page_chain.py:294-316 | the nested loop absorbs every observation in reading order and collects the denied ids |
| PageChain.AuditPagePayloads | scripts/audit_gmail_page_chain.py:244-375 | the whole audit computes `Audit`: manifest faults, cursor faults, row faults, then pages and report |
| PageChainLaws.NoFaultIffWellChained | scripts/audit_gmail_page_chain.py:265-292 | no cursor fault is raised exactly when the first page is requested with no cursor, only the last page may be terminal, it then has no next, every earlier one has one, and no next repeats |
| PageFields.LinkedIff | scripts/audit_gmail_page_chain.py:37-46 | the chain counts as verified exactly when every page, the first included, has one of its two request keys, and the text under the winning one is the text under the winning next key of its predecessor |
| PageFields.PageFaultIs | scripts/audit_gmail_page_chain.py:270-290 | the fault of a page from its keys: a first page with a cursor, a terminal page with a next, an inner page without one, a next met before |
| PageFields.ChainFaultIs | scripts/audit_gmail_page_chain.py:265-292 | the loop raises the fault of the first faulty page, and only where none is faulty that a terminal page is not last |
| PageFields.ManifestFaultIs | scripts/audit_gmail_page_chain.py:247-263 | no page at all, a first page without query or account, and pages whose five manifest texts differ are the manifest faults, in that order |
| PageFields.AuditFails | scripts/audit_gmail_page_chain.py:244-311 | which error an audit raises: the manifests', the cursors', or that of the first row that cannot be read or merged |
| PageFields.AuditReads | scripts/audit_gmail_page_chain.py:312-375 | every field of the report and of the rewritten pages from the supplied keys: status and safe coverage from the last page's terminal mark and the verified chain, all counts, the fingerprints' values, the messages of each page in id order, the ids denied by some page on every page, all other keys untouched |
| PageFields.PlacedIsMerged | scripts/audit_gmail_page_chain.py:294-325 | what stands on the rewritten pages is, for each message, the merge of all its observations |
| PageChainLaws.AbsorbsIff | scripts/audit_gmail_page_chain.py:294-311 | the grouping loop succeeds exactly when no message's observations conflict; it then keeps for each message the fold of its observations and the earliest page that carried it |
| PageChainLaws.AuditAcceptsIff | scripts/audit_gmail_page_chain.py:244-375 | an audit succeeds exactly when the manifests agree, the chain has no fault, every row normalises and no message conflicts |
| PageProjection.EachMessageOnce | scripts/audit_gmail_page_chain.py:294-327 | every observed message stands in exactly one place of the rewritten pages, on its earliest page, nothing else does, and raw = unique + duplicate |
| PageProjection.RewrittenTally | scripts/audit_gmail_page_chain.py:298-327 | reading the rewritten pages again finds the same rows on the same pages with no duplicate |
| PageProjection.AuditTwice | scripts/audit_gmail_page_chain.py:244-375 | auditing an audit's own pages returns the same pages and report, with the raw count now the unique count and no duplicates |
| PageAdapter.BuildAdapter | scripts/ingest_gmail_pages.py:53-109 | the filing loop computes `Build`: blocked, unverified, a refused manifest, a page that cannot be served, a duplicate cursor, or the map of pages by cursor |
| CalendarDates.CalendarDateIff | src/matters/providers/gmail/adapter.py:103-109 | the text of a year, month and day is a date exactly when the calendar has that day |
| PageAdapter.ManifestFromPayload | scripts/ingest_gmail_export.py:116-136 | a manifest is refused for a missing query or account, then for a null or empty revision, then for a date that is not one, and for nothing else |
| PageAdapter.Walk | src/matters/application/source_workflows.py:2410-2430 | the request loop yields `WalkOf`: the cursors of the pages taken, and whether it ended at a terminal page, at a coverage gap, stalled, ran out of requests, asked for a cursor not supplied or met a page that is not admitted |
| PageAdapter.WalkEnds | src/matters/application/source_workflows.py:2410-2430 | for any map of pages: a walk starts at the empty cursor, goes from each page to the next it names, and ends with the one reason that applies there |
| AdapterFields.KeyIs | scripts/ingest_gmail_pages.py:71-80 | the first page is filed under the empty cursor, another under the one it states or, stating none, the one its predecessor led to |
| AdapterFields.ManifestRejectionIs | scripts/ingest_gmail_export.py:116-136 | the manifest's refusals from its keys: no query or account, a revision stated as nothing, a start date that is none |
| AdapterFields.MessageFails | scripts/ingest_gmail_export.py:55-96 | when a supplied message is refused and with which error, and when it is exported as identity-only |
| AdapterFields.MessageIsExported | scripts/ingest_gmail_export.py:55-113 | every field of an exported message from the supplied one: which key wins, the default type and size of attachments, none of them on an identity-only message |
| AdapterFields.BuildFails | scripts/ingest_gmail_pages.py:58-102 | which error the adapter is refused with: blocked, unverified, the manifest's, or that of the first page that is refused or whose cursor is taken |
| AdapterFields.AdapterHolds | scripts/ingest_gmail_pages.py:71-102 | the page filed for each audited page holds that page's rows, field for field |
| PageAdapter.WalkMeans | src/matters/application/source_workflows.py:2410-2430 | over a map whose nexts are distinct a walk follows a trail of admitted pages, takes none twice and never stalls, and ends where its reason says |
| PageAdapter.LimitNotReached | scripts/ingest_gmail_pages.py:137 | one request for each page is enough: the limit given on import is never what ends a walk |
| PageAdapterLaws.MessageAccepts | scripts/ingest_gmail_export.py:55-113 | the second classification accepts an audited row exactly when it is identity-only or none of its attachments has a negative size; the message then has the row's id, thread, date, labels, subject, sender, snippet, attachments (none if identity-only) and flag |
| PageAdapterLaws.AdapterServes | scripts/ingest_gmail_pages.py:53-109 | the adapter is built exactly when the guards let it open, its manifest is lawful, no size is refused and no cursor repeats; it then holds one answering entry for each page, terminal exactly when that page is and the chain is verified, and a full walk in supplied order exists exactly when stated cursors name their predecessor's next |
| PageAdapterLaws.WalkIsTheTrail | src/matters/application/source_workflows.py:2410-2430 | when a full trail exists it is the only one, and the walk follows it exactly up to its first page that is not admitted, or to its end: to coverage where its last page is terminal, to a gap where not |
| PageAdapterLaws.VerifiedWalk | scripts/ingest_gmail_pages.py:58-137 | for a verified chain the adapter is built exactly when the last page is terminal or partial imports are allowed, the manifest is lawful and no size is refused, never refused for a duplicate cursor; its walk takes the pages in order up to the first with more than 500 messages, where it is rejected, and finishes with all of them exactly when there is none; only the page filed last can be terminal, and it is exactly when the report is complete, so a finished walk covers the query or ends at a gap as the report says |
| PageAdapterLaws.ChainWalked | src/matters/application/source_workflows.py:2410-2430 | the walk of any opened chain ends at a page without a next, at a cursor not supplied or at a page not admitted; where pages lead from one to the next it is the ordered walk |
| PageAdapterLaws.ChainAdmittedIff | src/matters/providers/gmail/adapter.py:350-377 | every page of a served chain is admitted when asked for exactly when each is within the message budget |
| PageAdapterLaws.PageServed | scripts/ingest_gmail_export.py:139-192 | a page of distinct audited rows is served exactly when every row can be exported and it is not terminal with a next cursor; it then holds one message for each row, field for field, and in order the body, subject, sender and recipients of each row that has a body |
| PageAdapterLaws.ContentsEmitted | scripts/ingest_gmail_export.py:153-168 | all pages are served exactly when no size is refused; the contents emitted then number exactly the audit's content-bearing count, and no body belongs to an identity-only message |
| SuppliedSizes.SizesAllowedIff | scripts/ingest_gmail_export.py:55-64 | read off the supplied messages: no size is refused exactly when every message not kept as identity-only was never observed with a negative size |
| SearchCapture.CheckCalls | scripts/capture_gmail_search_chain.js:89-108 | the loop over the calls exits with the code of the first fault, or with none |
| SearchCapture.CaptureChain | scripts/capture_gmail_search_chain.js:21-155 | the capturer computes `Capture`: an exit code, or one page for each call |
| SearchCaptureLaws.CapturedAudits | scripts/capture_gmail_search_chain.js:85-155 | captured pages pass the audit exactly when the account is not empty |
| SearchCaptureLaws.CapturedPageSize | scripts/audit_gmail_page_chain.py:318-325 | the audit leaves on each captured page as many messages as its call found |
| SearchCaptureLaws.CapturePipeline | scripts/capture_gmail_search_chain.js:81-155 | every accepted capture with an account is audited as complete: verified, no duplicates, all identity-only, as many messages as captured ids; its adapter opens exactly when no date was given or it is one of the calendar; the walk then takes the pages in order up to the first call with more than 500 ids, and ends at the terminal page, with all of them, exactly when there is none |
| CaptureFields.CaptureEnds | scripts/capture_gmail_search_chain.js:21-108 | which exit code the capturer ends with: no query, a malformed date, no call or one without result, then the fault of the first faulty call; it writes pages exactly when there is none of these |
| CaptureFields.CallFaultIs | scripts/capture_gmail_search_chain.js:89-108 | the fault of a call from its tokens and ids: not asking on, asked before, ending early, not ending, an id that is empty or found before |
| CaptureFields.CapturedPages | scripts/capture_gmail_search_chain.js:115-149 | every key of every page written, from the settings and the call |
| Coverage.RecountAgrees | scripts/summarize_gmail_verified_coverage.py:25-34 | the independent recount of ids equals the audit's unique count and is exactly the set of observed messages |
| Coverage.SummaryCounts | scripts/summarize_gmail_verified_coverage.py:37-108 | a produced summary's scope counts are the sizes of the recounted sets, and the audited legacy messages split exactly into covered and not covered |
| Coverage.SummaryReads | scripts/summarize_gmail_verified_coverage.py:64-95 | the union is the ids of the three scopes, the overlaps are those of two scopes each, and the legacy ids are counted as inside or outside the union |
| Coverage.SummarySucceedsIff | scripts/summarize_gmail_verified_coverage.py:49-62 | there is a summary exactly when the three scopes are complete and the legacy chain partial; which error is raised otherwise |
| HarnessSound.InputsAre | flowguard_models/harness.py:437-439 | one input for each rule, under its logical key or, without one, its case id |
| HarnessSound.StepMeaning | flowguard_models/harness.py:146-212 | each step of a run: the output, the tag and the recorded events when the input is first seen, when it is repeated and when the hazard strikes, from the rule and the hazard alone |
| HarnessSound.PassesMeans | flowguard_models/harness.py:215-298 | a run passes exactly when each step's output is what its rule declares, first seen or repeated, only owned fields are written and no recorded event repeats |
| HarnessSound.AlwaysPassesIff | flowguard_models/harness.py:146-298 | without a hazard every run over the declared inputs passes exactly when each rule writes only owned fields, no rule's event strings repeat, and inputs of different keys share none |
| HarnessLaws.PassesIff | flowguard_models/harness.py:215-298 | a run meets the four invariants exactly when each input is a sound step, first seen or repeated, and the recorded events do not repeat |
| HarnessLaws.FailureIsShort | flowguard_models/harness.py:146-298 | a failure in a run of any length is the failure of one input, of one input repeated, or of two of its inputs alone |
| HarnessLaws.ShortFailure | flowguard_models/harness.py:146-298 | from every failing run a failing run of at most two of its inputs can be read off |
| HarnessLaws.DepthTwoIsEnough | flowguard_models/harness.py:437-450 | if every sequence of length at most two over the declared inputs passes, so does every sequence, for any specification and any hazard or none |
| HarnessLaws.HazardCaughtAtOnce | flowguard_models/harness.py:179-185 | a hazard whose broken label is not the rule's own fails on its case alone |
| HarnessLaws.HazardPassesIff | flowguard_models/harness.py:146-212 | a hazard goes unnoticed by every run exactly when the sound harness passes every run and the hazard does, wherever it strikes, what the rule does at a first occurrence and, if it ignores idempotency, at a repetition |
| HarnessLaws.AtMostOnceIff | flowguard_models/harness.py:285-298 | without a hazard, no run repeats an event exactly when no input's own events repeat and inputs of different keys share none |
| HarnessLaws.EventInjective | flowguard_models/harness.py:194-197 | the event string determines key and field when the keys contain no bar |
| HarnessLaws.TidyRunsOnce | flowguard_models/harness.py:187-199 | writes and effects without repeats and keys without a bar are enough for events to occur at most once over all runs |
| HarnessReplay.DepthOneIsNotEnough | flowguard_models/harness.py:437-450 | a specification whose inputs all pass alone while two of them together fail, because a key contains a bar |
| HarnessReplay.StateOfFirsts | flowguard_models/harness.py:146-212 | without a hazard the state after a run is read off the first occurrences of its keys, in order |
| HarnessReplay.ReplayAbsorbed | flowguard_models/harness.py:152-171 | without a hazard a run reaches the same state as the run of only the first occurrence of each key |
| HarnessReplay.Lockstep | flowguard_models/harness.py:187-199 | terminal outputs and processed keys have one entry each for every distinct key, in the same order |
| HarnessReplay.ReorderPermutes | flowguard_models/harness.py:187-199 | runs over the same keys, where inputs of one key record the same events, record the same multiset of events |
| HarnessReplay.OrderFreeIff | flowguard_models/harness.py:187-199 | reordering never changes the multiset of events exactly when declared inputs of one key record the same ones |
| BackslashEscapes.DigitsRead | scripts/check_public_boundary.py:253-256 | each digit of either case has its place among the sixteen as its value |
| BackslashEscapes.EscapeMeaning | scripts/check_public_boundary.py:60-63 | what an escape at the start of a text is, character by character, and which number its digits make |
| BackslashEscapes.ShortEscapesRead | scripts/check_public_boundary.py:241-250 | the eight short escapes and the characters they stand for |
| BackslashEscapes.UnescapeShortens | scripts/check_public_boundary.py:60-63 | a decoding pass that matches anything strictly shortens the text, and one that does not leaves it alone |
| BackslashEscapes.PassesSettle | scripts/check_public_boundary.py:252-259 | repeated decoding reaches a text without escapes within as many passes as there are characters, and stays there |
| BackslashEscapes.SpellingDecodes | scripts/check_public_boundary.py:241-259 | every text written token by token as escapes decodes to its meaning, for all ten spellings |
| BackslashEscapes.EscapedDecodes | scripts/check_public_boundary.py:252-259 | text within the basic plane written wholly as four-digit escapes (section 7 of RFC 8259), in any number of layers, with digits of either case, loses one layer at each pass and is decoded after as many |
| TextVariants.ReachMeaning | scripts/check_public_boundary.py:233-264 | each round adds what one of the three decoders makes of what the rounds before reached |
| TextVariants.Decoders.ReachIsPaths | scripts/check_public_boundary.py:232-265 | the closure to depth n holds exactly the texts some path of at most n decoder applications leads to |
| Closures.ReachSettles | scripts/check_public_boundary.py:260-262 | once a round finds nothing new, further rounds add nothing, so the early exit loses nothing |
| Closures.FrontierStep | scripts/check_public_boundary.py:235-264 | expanding only the newest texts and dropping the known ones computes the next level of the closure |
| TextVariants.Variants | scripts/check_public_boundary.py:232-265 | the frontier search returns exactly the texts reachable by at most three decoder applications |
| TextVariants.NestedSpellingsRecovered | scripts/check_public_boundary.py:232-265 | one, two or three nested layers of escapes, of any spelling, are recovered at that depth |
| TextVariants.EscapedIsRecovered | scripts/check_public_boundary.py:232-265 | a text in the basic plane under at most three layers of four-digit escapes, with digits of either case, is among the variants |
| TextVariants.AnyVariant | scripts/check_public_boundary.py:289-297 | scanning all candidates finds a suspicious variant exactly when some candidate has one within reach |
| PackageDigest.TreeListing | scripts/build_desktop_manifest.py:76-86 | the sorted loop over the files yields the canonical listing of the tree, or the error for an empty one |
| PackageDigest.WriteMembers | scripts/build_desktop_release_archive.py:89-102 | the archive holds the package files under their prefixed names in path order, then the control files |
| PackageDigest.ArchiveListing | scripts/check_public_boundary.py:672-679 | the archive's listing is built from the names under the prefix, in sorted order |
| PackageDigestLaws.MembersAre | scripts/build_desktop_release_archive.py:89-102 | the members are the package files, prefixed and in ascending path order, then the four control files by name |
| PackageDigestLaws.LinesOfJoin | scripts/build_desktop_manifest.py:86 | joined rows without line feeds are recovered by splitting at line feeds |
| PackageDigestLaws.ListingDetermines | scripts/build_desktop_manifest.py:76-86 | for trees whose paths contain no line feed, equal listings mean the same paths with the same hashes, and conversely |
| PackageDigestLaws.LineFeedConfuses | scripts/build_desktop_manifest.py:83-86 | a path with a line feed can make the listings of a one-file and a two-file tree equal |
| PackageDigestLaws.ListsLikeOneFile | scripts/build_desktop_manifest.py:76-86 | every tree lists like some tree of one file, whose path holds a line feed when there are more files than one |
| PackageDigestLaws.EnumerationIrrelevant | scripts/build_desktop_manifest.py:78-81 | the order in which the files are enumerated does not matter |
| PackageDigestLaws.PrefixKeepsOrder | scripts/check_public_boundary.py:673-676 | sorting prefixed names is prefixing sorted names |
| PackageDigestLaws.PackUnpack | scripts/build_desktop_release_archive.py:89-102 | reading back the members under the prefix gives the packed tree |
| PackageDigestLaws.TreeAndArchiveAgree | scripts/check_public_boundary.py:672-684 | the listing recomputed from the archive equals the listing of the directory tree |
| PackageDigestLaws.ArchiveMatchesIff | scripts/check_public_boundary.py:672-684 | an archive's listing equals a tree's exactly when it unpacks to the same paths with the same hashes |
| LedgerRows.AppendUnique | scripts/rebase_autonomy_ledger.py:379-384 | the loop appends the values not yet present, each once |
| LedgerRows.RewriteRow | scripts/rebase_autonomy_ledger.py:794-1209 | one turn of the row loop gives each field its specified new value, or the fault of an unknown owning model; for the six rows that take their writes from a model, the lists the branches append are overwritten |
| LedgerRowLaws.AppendedMembers | scripts/rebase_autonomy_ledger.py:379-384 | appending keeps what was there in place, makes the union of the values, and adds no repeat |
| LedgerRowLaws.WritesMeaning | scripts/rebase_autonomy_ledger.py:830-1198 | where no model decides, a row ends with exactly the earlier writes its branch keeps and the fields it lists, and the first-run row with no repeat |
| LedgerRowLaws.FirstRunRelations | scripts/rebase_autonomy_ledger.py:998-1018 | the first-run row keeps its other relations and depends on the release exactly once |
| LedgerRowLaws.RewrittenAgain | scripts/rebase_autonomy_ledger.py:794-1209 | a row that has been through the loop goes through it again unchanged |
| LedgerRowLaws.TurnInvalidates | scripts/rebase_autonomy_ledger.py:794-824 | an active row ends with stale evidence and a blocked path; of a retired row only the wording changes |
| LedgerRowLaws.ModelWritesWin | scripts/rebase_autonomy_ledger.py:1200-1209 | an active row of the six ends with its owning model's fields whatever its list was before |
| LedgerRebase.Ledger.EnsureCommitment | scripts/rebase_autonomy_ledger.py:387-487 | the ledger gains the missing commitment as a changed copy of the template and both expected ids, or the fault of a missing row or field |
| LedgerRebase.Ledger.BindInstallationSurfaces | scripts/rebase_autonomy_ledger.py:710-780 | the three installation surfaces are updated or added, and the first-run commitment lists them once each |
| LedgerRebase.Ledger.RewriteCommitments | scripts/rebase_autonomy_ledger.py:794-1209 | every row is turned in order, or the first row's fault is raised |
| LedgerRebase.Ledger.Rebase | scripts/rebase_autonomy_ledger.py:783-1225 | the whole script takes the ledger to `Rebased` of its state, or raises its fault |
| LedgerRebaseLaws.RebasedIsSettled | scripts/rebase_autonomy_ledger.py:490-780 | a rebased ledger has both script-owned commitments and all bound surfaces, the first-run surface no longer claims maintenance, and every pass leaves it alone |
| LedgerRebaseLaws.RebaseIdempotent | scripts/rebase_autonomy_ledger.py:783-1225 | rebasing a rebased ledger succeeds and changes nothing |
| LedgerRebaseEffect.RebaseEffect | scripts/rebase_autonomy_ledger.py:794-1225 | afterwards every active commitment has stale evidence and a blocked primary path, old rows keep their places, only the two owned commitments are added, and retired rows keep evidence, authority and writes |
| LedgerRebaseEffect.RebaseLinks | scripts/rebase_autonomy_ledger.py:1211-1225 | afterwards every release surface leads to the release path, and every gateway relation to the object browser or to maintenance is an invocation |
| LedgerRebaseEffect.RebaseSucceedsIff | scripts/rebase_autonomy_ledger.py:387-1209 | the script succeeds exactly when the template (if needed), the first-run surface and commitment, and the owning models of the active rows that need one are there |
| LedgerFaults.RebaseFails | scripts/rebase_autonomy_ledger.py:387-1209 | which exception the script dies of: what the maintenance steps miss, what the later steps miss, or the first row whose owning model is unknown, and none otherwise |
| LedgerFields.TurnFields | scripts/rebase_autonomy_ledger.py:794-1209 | every field of an active row after its turn, from the script's own fields and lists |
| LedgerFields.RebasedRows | scripts/rebase_autonomy_ledger.py:387-1225 | every field of every commitment of the rebased ledger: old rows in their places, bound and turned; then the missing owned ones, made from the template with the script's owner, obligations, gates, authority, lookup, writes, relations and metadata, and turned |
| LedgerFields.RebasedSurfaces | scripts/rebase_autonomy_ledger.py:490-780 | the five bound surfaces name their commitment, intent, path and notes, the first-run surface is freed of maintenance, revision and scope are set |
| LedgerFields.OtherSurfaces | scripts/rebase_autonomy_ledger.py:1211-1215 | every other surface stays in its place, changed only in its path where it serves the release, and only bound surfaces are added |
| LedgerNotes.RebasedNotes | scripts/rebase_autonomy_ledger.py:490-780 | every surface keeps its fields that the script does not write, and each new one has those of the surface it is copied from |
| LedgerFields.ExpectedLists | scripts/rebase_autonomy_ledger.py:481-487 | what is expected grows by exactly the added commitments and their intents |
| LedgerWording.ShippedIsLawful | scripts/rebase_autonomy_ledger.py:1046-1061 | the shipped lists append no field that the same branch drops |
| OwnershipCover.CollectOwners | flowguard_design/run_g4_review.py:307-324 | the nested loops build, for each of the four kinds, the map from every owned item to its claimants in order, and the accounting flag |
| OwnershipCover.TestMeshInvariants | flowguard_design/run_g4_review.py:304-350 | the exactness flags decide that the required items are owned once each and nothing else, the uniqueness flags that nothing is owned twice, and a good accounting flag vouches for the totals |
| OwnershipCover.ExactIsPartition | flowguard_design/run_g4_review.py:336-343 | ownership is exact if and only if every required id occurs exactly once across all suites' owned lists and nothing else occurs |
| OwnershipCover.UniqueIsDisjoint | flowguard_design/run_g4_review.py:344-349 | ownership is unique if and only if the owned lists, put together, repeat nothing |
| OwnershipCover.OwnedCount | flowguard_design/run_g4_review.py:317-324 | an item is owned as often as the suites list it under the field |
| OwnershipCover.TotalsAccounted | flowguard_design/run_g4_review.py:313-316 | suites that are each accounted for have totals with planned = executed + not run and failed at most executed |

## Left out

- JSON values that are not strings where strings are expected: `str()` renderings of numbers and containers, and the type errors raised for values that cannot be iterated. Text values are strings or null.
- Timestamp parsing: `Stamp` is any normaliser whose results it leaves unchanged, whose result for an empty text is null, and which may overflow, as moving a time near the ends of the calendar to UTC does; the row is then not readable.
- Message text inside error values: errors carry the id or field, not the hashed reference.
- Query, account and page-set fingerprints: the report carries the values under the hashes.
- The adapter class beyond `authorized_page`, and what the service does with the pages it takes. That a page's five manifest fields agree with the adapter's is not modelled, since all pages are built with the one manifest.
- The manifest's hashes and the attributes with fixed values.
- Label categories, and the headers of emitted contents. An attachment that is not identified is refused whether its id is null or absent.
- Reading the session log in the capturer: the calls with their results are the input; file writing is left out.
- The summary's file reading, and its receipt's fixed texts.
- Workflow, scenarios, templates and proofs around the harness, and what the imported FlowGuard library does with them.
- TextVariants.Variants: returns a set; the source sorts it into a tuple.
- `unquote` and `html.unescape`: any functions; the privacy patterns, the machine markers and structured-document parsing are not modelled, `AnyVariant` takes the suspicion as a predicate.
- SHA-256, zip compression, link and path-escape checks, and the other checks of the release gate: a digest is any function whose results have 64 characters and no tab or line feed.
- `_file_set_sha256`: the same listing over file names, with no new law.
- The ledger's long texts and field lists: parameters of the results. Commitment and surface ids are an enumeration of the ones the script names plus any other, since they are only compared; the current source fields are listed already in ascending order.
- Ledger fields of the wrong type, rows without an id, and the difference between an absent list and an empty one: rows are typed; only `evidence`, `path_authority`, `lookup_binding` and `replacement_state` may be absent.
- LedgerRebase.Ledger.Rebase: when a fault is raised the state in memory is not specified, since the script then writes nothing back.
- The final mapping of the ledger through the imported ledger class, and the file it is written to.
- The other reports of the design review, which read fixed declaration tables.
