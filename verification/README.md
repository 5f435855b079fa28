# Verification of the storefront backend

A Dafny model of the parts of the backend that keep state or run concurrently, with proofs about
every input, every run or every interleaving.

| part | files |
|---|---|
| catalog tables, the document, validation | `CatalogTables`, `CatalogDocument`, `DraftValidation`, `Patterns`, `Uuids`, `Utf8` |
| `catalog_save` as a class, its specification, what it means | `CatalogDatabase`, `CatalogSaveSpec`, `CatalogSaveProofs`, `CatalogSaveTheorems`, `CatalogRows` |
| runs of saves; when active products stay on sale | `CatalogRuns`, `CatalogOffers` |
| concurrent saves, what they leave and what they answer | `SaveCommutes`, `SaveConcurrency`, `SaveAnswers` |
| read, edit, save | `CatalogRoundTrip` |
| concrete runs into the limits | `CatalogExamples`, `CatalogSpellings`, `CatalogLimits` |
| list, find, filters, sitemap | `CatalogQuery`, `CatalogPages`, `CatalogPublic`, `FilterParsing`, `Sitemap` |
| executor and dispatch | `ExecutorQueue`, `ExecutorThreads`, `Dispatch`, `DispatchReplies` |
| outbox | `OutboxTable`, `OutboxWorkers`, `OutboxFairness`, `OutboxWaiting` |
| migrations | `MigrationPlan`, `MigrationRunner` |
| login throttle | `Throttle` |
| connection string | `ConnectionString`, `Decimals` |
| media | `Media` |

`Orders` and `Wrappers` hold ordered listings and `Option`. The state-changing code is written as the
source writes it: `Database`, `Outbox`, `Executor`, `Target`, `Gatekeeper` and `Service` are classes
whose methods change fields in loops, each tied to a function of the old state. Protocols with
several participants are step relations, with the interleavings left free.

Results worth knowing:

- Validation compares variant ids as raw strings while the database compares uuid values. A draft that
  names one row as `aaaa...` and `AAAA...` passes, the last item wins, and an active product can end
  with no available variant. `CatalogSpellings` gives the input, `CatalogOffers` the exact condition on the
  drafts, for one save and for whole runs. Everything else about runs holds of any accepted drafts.
- SKU uniqueness is immediate, so a save that swaps two SKUs or reuses a retired variant's SKU is refused.
- Retired variants stay in the document and count towards the limit of fifty, so a product with more
  than fifty rows can no longer be saved as read. A run of ordinary saves gets there (`CatalogLimits`).
- `INVALID_REFERENCE` also stands for an unknown actor: the audit row has a foreign key of its own.
- A product whose revision is 2147483647 cannot be saved: the overflow is not among the caught errors.
  `CatalogRoundTrip` says exactly when the document as read can be saved back.
- A concurrent save is refused only with the answer it would get alone, and with a conflict only if
  somebody else's update has taken the revision it expected.
- The throttle's limits hold per window; over an arbitrary interval of the same length the bound is
  twice as large, and it is reached. A statement reads the clock before it waits for the row, so it may run
  after later-started ones; the bound counts that lag in.
- Among several outbox workers rows parked twice can pass an event over, while some statement runs longer than
  the retry delay. The bound on waiting counts every row's five attempts then; without such statements it is
  that of a single poller.

Assumptions: `gen_random_uuid` and the upload's id generator return new keys in lower case; collations and
`localeCompare` are arbitrary total orders, `localeCompare` agreeing with code-unit order on well-formed
migration names with different numbers; migration files are only added, under growing numbers; the executor
has a worker. `list` keeps the page order although its outer `jsonb_agg` has no ORDER BY.

## Model

| member | source | states |
|---|---|---|
| `CatalogDatabase.Database.CatalogSave` | database/migrations/0003_catalog_write.sql:1-53 | run statement by statement the procedure is one atomic replacement: with an objection it returns that code and every table is as before, without one the tables are the replacement and the new document comes back |
| `CatalogDatabase.Database.WriteProduct` | database/migrations/0003_catalog_write.sql:17-22 | the row written and, in the order the statement meets them, cast error, exhausted revision, CHECK, taken slug, unknown brand |
| `CatalogDatabase.Database.ReplaceCategories` | database/migrations/0003_catalog_write.sql:23-24 | the rows inserted one by one are the declared set; a malformed or repeated id and an unknown category are told apart as the insertion order does |
| `CatalogDatabase.Database.ReplaceTranslations` | database/migrations/0003_catalog_write.sql:25-28 | the translations of the product become the draft's, or one violates a CHECK |
| `CatalogDatabase.Database.UpsertVariant` | database/migrations/0003_catalog_write.sql:30-36 | one turn of the upsert: ownership of a named id, price range, CHECKs and immediate SKU uniqueness decide, then the row is as the declarative table after i + 1 variants says |
| `CatalogDatabase.Database.WriteAttributes` | database/migrations/0003_catalog_write.sql:38-39 | one variant's attributes are deleted and reinserted, or one is too long or unknown |
| `CatalogDatabase.Database.WriteVariants` | database/migrations/0003_catalog_write.sql:29-40 | the loop reports the first failing variant and otherwise leaves the declarative variant and attribute tables and the named keys in `retained` |
| `CatalogDatabase.Database.DeactivateOthers` | database/migrations/0003_catalog_write.sql:41 | exactly the product's rows that are not retained become inactive |
| `CatalogDatabase.Database.ReplaceImages` | database/migrations/0003_catalog_write.sql:42-44 | images stand on their ordinal positions; more than ten, repeats and unknown media are told apart as the insertion order does |
| `CatalogDatabase.Database.Rollback` | database/migrations/0003_catalog_write.sql:49-52 | a caught error restores every table |
| `CatalogRows.AcceptedExactly` | database/migrations/0003_catalog_write.sql:1-53 | when the call is carried out, said of the rows: the target is there at the expected revision below 2147483647, slug, status and brand fit, every list names known rows once, every text has its CHECKed length, every variant fits and no row that is not its own holds its SKU when its turn comes, and the actor is a user |
| `CatalogRows.ProductRowStored` | database/migrations/0003_catalog_write.sql:17-22 | one product row is written, field by field: slug, status and brand of the draft, revision 1 or one more, creation time now or as before; every other row stays |
| `CatalogRows.CategoryRowsStored` | database/migrations/0003_catalog_write.sql:23-24 | the product is linked to exactly the categories of the draft, every other link stays |
| `CatalogRows.TranslationRowsStored` | database/migrations/0003_catalog_write.sql:25-28 | the product has exactly the translations of the draft, every other one stays |
| `CatalogRows.VariantRowsStored` | database/migrations/0003_catalog_write.sql:29-41 | each row is as the last draft variant naming it says, field by field and attribute by attribute; a row of the product nobody names is inactive and otherwise as it was; every other row stays |
| `CatalogRows.ImageRowsStored` | database/migrations/0003_catalog_write.sql:42-44 | the i-th image of the draft stands on position i, nothing else is shown, every other product's images stay |
| `CatalogRows.AuditRowStored` | database/migrations/0003_catalog_write.sql:45-47 | one audit row more: actor, request, product, status, "product.created" without a target and "product.updated" with one, the revision before and the revision stored |
| `CatalogSaveProofs.ReplacedKeepsSchema` | database/migrations/0002_catalog.sql:45-94 | after a replacement slugs, SKUs and positions are unique, every reference resolves and every CHECK holds |
| `CatalogSaveProofs.SweepIsDeclared` | database/migrations/0003_catalog_write.sql:37-41 | the sweep over the `retained` array is the declarative one over the named rows |
| `CatalogSaveTheorems.DraftContentsStored` | database/migrations/0003_catalog_write.sql:17-44 | slug, status, brand, categories, translations and image order of the product are the draft's |
| `CatalogSaveTheorems.NamedVariantStored` | database/migrations/0003_catalog_write.sql:29-40 | a named row carries the fields and attributes of the last draft variant naming it |
| `CatalogSaveTheorems.EachDraftVariantStored` | database/migrations/0003_catalog_write.sql:29-40 | with ids distinct as uuid values every draft variant is stored as it stands |
| `CatalogSaveTheorems.UnnamedVariantsRetired` | database/migrations/0003_catalog_write.sql:41 | variants the draft leaves out keep id, SKU, name, price and attributes and become inactive |
| `CatalogSaveTheorems.VariantIdentityKept` | database/migrations/0003_catalog_write.sql:30-41 | no variant id disappears or changes product; new ids are minted ones of the saved product |
| `CatalogSaveTheorems.OtherProductsUntouched` | database/migrations/0003_catalog_write.sql:17-44 | row, categories, translations, images, variants and attributes of every other product stay |
| `CatalogSaveTheorems.SkuHeldExactly` | database/migrations/0003_catalog_write.sql:34-36 | in the middle of the loop a SKU is held exactly by a row not rewritten yet |
| `CatalogSaveTheorems.HeldSkuIsRefused` | database/migrations/0003_catalog_write.sql:34-36 | taking the SKU of a row the loop has not reached is refused, a retired variant's SKU included |
| `CatalogSaveTheorems.SwapOfSkusIsRefused` | database/migrations/0003_catalog_write.sql:34-36 | two variants cannot exchange SKUs in one save |
| `CatalogSaveTheorems.ValidDraftVerdict` | services/api/src/modules/catalog/CatalogService.cpp:40-69 | a validated draft meets every CHECK and cast: it is carried out exactly when the revision can grow, no reference is missing and no slug, SKU or link clashes; it is aborted exactly when the revision cannot grow; the other codes mean what they say |
| `CatalogSaveTheorems.AtMaxRevisionAborts` | database/migrations/0003_catalog_write.sql:17-18 | at revision 2147483647 every validated update is aborted, an error the procedure does not catch |
| `Utf8.LeadsCountCodePoints` | services/api/src/modules/catalog/CatalogService.cpp:17 | on well-formed UTF-8 (section 3 of RFC 3629) counting bytes that are not continuation bytes counts code points |
| `Utf8.ScalarOfEncoding` | services/api/src/modules/catalog/CatalogService.cpp:17 | the bytes are those of section 3 of RFC 3629: they stand for the character, as few as it takes, all but the first of the form 10xxxxxx |
| `Utf8.EncodeIsInjective` | services/api/src/modules/catalog/CatalogService.cpp:23-25 | texts are equal as bytes exactly when equal as code points, so the byte-string sets find duplicates |
| `Utf8.BlankBytesAreBlankChars` | services/api/src/modules/catalog/CatalogService.cpp:18 | the search for a byte outside " \t\r\n" decides whether the text is blank |
| `DraftValidation.Text` | services/api/src/modules/catalog/CatalogService.cpp:14-20 | accepts exactly the texts with the allowed number of code points that are not blank when required |
| `DraftValidation.Ids` | services/api/src/modules/catalog/CatalogService.cpp:21-26 | the loop with its set accepts exactly the lists of allowed length of distinct uuid spellings |
| `DraftValidation.VariantLoop` | services/api/src/modules/catalog/CatalogService.cpp:57-67 | the loop with its two sets and its flag: every variant well formed, no SKU and no id spelling twice, and the flag says whether one is available |
| `DraftValidation.PassedMeans` | services/api/src/modules/catalog/CatalogService.cpp:59-67 | passing one by one is the same as being well formed each and apart pairwise |
| `DraftValidation.ValidateDraft` | services/api/src/modules/catalog/CatalogService.cpp:40-69 | returns normally exactly on the drafts described without any order of checks |
| `Uuids.CanonIsCanonical` | services/api/src/modules/catalog/CatalogService.cpp:9-12 | any accepted spelling has one stored value |
| `Patterns.SlugIsWords` | services/api/src/modules/catalog/CatalogService.cpp:43 | the slug test accepts exactly non-empty words of a-z and 0-9 joined by single hyphens |
| `Patterns.UuidIsFiveGroups` | services/api/src/modules/catalog/CatalogService.cpp:9-12 | the uuid test accepts exactly five groups of 8, 4, 4, 4 and 12 hexadecimal digits joined by hyphens, in either case |
| `Patterns.SameUuidExactly` | services/api/src/modules/catalog/CatalogService.cpp:9-12 | two spellings have one stored value exactly when their digits have the same values |
| `FilterParsing.Integer` | services/api/src/modules/catalog/CatalogService.cpp:27-33 | digits up to the maximum, nothing for the default, and minus zero |
| `FilterParsing.ParseFilter` | services/api/src/modules/catalog/CatalogService.cpp:70-82 | accepts exactly the well-formed parameters, and what it accepts can be listed: page, limit, price range and offset are in range |
| `FilterParsing.UnderstoodExactly` | services/api/src/modules/catalog/CatalogService.cpp:70-82 | which requests are understood, parameter by parameter, bounds written out |
| `FilterParsing.FilterSays` | services/api/src/modules/catalog/CatalogService.cpp:70-82 | which parameter each field is read from, and its default |
| `Sitemap.FeedRequestIsUnderstood` | apps/storefront/src/pages/sitemaps/[page].xml.ts:13-15 | the API accepts the request of every page the sitemap may list and reads the filter meant |
| `CatalogRuns.SaveKeepsInv` | database/migrations/0003_catalog_write.sql:1-53 | one accepted save, of any draft, keeps the whole invariant |
| `CatalogRuns.RunKeepsInv` | database/migrations/0003_catalog_write.sql:1-53 | every run of saves keeps: schema, both translations, one to ten categories, images on positions 0, 1, 2, ..., prices in range, a variant on every product, and the audit chain |
| `CatalogRuns.EmptyIsFine` | database/migrations/0002_catalog.sql:45-100 | the empty tables satisfy the invariant |
| `CatalogRuns.RefusedChangesNothing` | services/api/src/modules/catalog/CatalogService.cpp:95-105 | a save that fails validation, an update without a positive revision and a refused call change nothing; any other is the replacement |
| `CatalogOffers.AvailableExactly` | database/migrations/0003_catalog_write.sql:29-41 | the product ends with an available variant exactly when some available draft variant is the last to name its row |
| `CatalogRuns.RevisionsNeverFall` | database/migrations/0003_catalog_write.sql:17-18 | no run lowers a revision or removes a product |
| `CatalogRuns.VariantsNeverVanish` | database/migrations/0003_catalog_write.sql:30-41 | no run removes a variant id or moves it to another product |
| `CatalogRuns.ExpectedRevisionIsSpent` | database/migrations/0003_catalog_write.sql:14-18 | after an update with an expected revision no later update with the same one commits |
| `CatalogOffers.AvailableUnlessOverridden` | services/api/src/modules/catalog/CatalogService.cpp:57-68 | the condition under which "an active product needs an active variant" holds after the save, in terms of the draft alone |
| `CatalogOffers.DistinctIdsStayOnSale` | services/api/src/modules/catalog/CatalogService.cpp:62 | a validated draft whose ids are distinct as uuid values meets that condition |
| `CatalogOffers.SaveKeepsOffersExactly` | services/api/src/modules/catalog/CatalogService.cpp:57-68 | one save keeps every active product on sale exactly when its draft meets the condition |
| `CatalogOffers.RunKeepsOffersExactly` | services/api/src/modules/catalog/CatalogService.cpp:57-68 | a run keeps every active product on sale all the way exactly when each draft it carries out meets the condition |
| `CatalogSpellings.SpellingsDefeatAvailability` | services/api/src/modules/catalog/CatalogService.cpp:62 | a reachable state and an accepted draft that leave an active product without an available variant |
| `CatalogSpellings.SomeCastSuits` | services/api/src/modules/catalog/CatalogService.cpp:9-12 | concrete ids for that input |
| `SaveCommutes.InstallIsReplaced` | database/migrations/0003_catalog_write.sql:17-44 | what a session wrote over one state is, committed into another that agrees on its product, one atomic replacement there |
| `SaveCommutes.VerdictByStatements` | database/migrations/0003_catalog_write.sql:17-47 | the verdict of a call is the conjunction of its statements' verdicts |
| `SaveCommutes.FirstObjectionDecides` | database/migrations/0003_catalog_write.sql:17-52 | the first statement that objects decides the answer of the whole call |
| `SaveCommutes.StatementAfterCommit` | database/migrations/0003_catalog_write.sql:17-47 | a statement that passed would pass again after another session commits a save of another product, unless that save took the slug or SKU it needs |
| `SaveConcurrency.WriteKeepsSessions` | database/migrations/0003_catalog_write.sql:17-47 | a statement run on its own snapshot keeps what every session knows, and the keys in flight apart |
| `SaveConcurrency.OtherSessionStaysSound` | database/migrations/0003_catalog_write.sql:10-47 | what a session established, under its row lock and statement by statement, survives the commits of the others |
| `SaveConcurrency.CommitIsReplacement` | database/migrations/0003_catalog_write.sql:1-53 | at its commit a session replaces the committed tables as a save alone would, though revision and statements saw earlier snapshots |
| `SaveConcurrency.EveryRunIsSerial` | database/migrations/0003_catalog_write.sql:10-47 | serializability: for every interleaving of the statements the committed tables are those of the committed saves one after the other in commit order, so the invariant holds |
| `SaveConcurrency.EveryRunStaysOnSale` | services/api/src/modules/catalog/CatalogService.cpp:57-68 | whatever the interleaving, active products stay on sale as long as the committed drafts do |
| `SaveConcurrency.NoLostUpdate` | database/migrations/0003_catalog_write.sql:45-47 | the audit rows of each product carry revisions 1 to n, each over the one before, and n is the product's revision; the first says "product.created" and every later one "product.updated" |
| `SaveConcurrency.OneUpdatePerRevision` | database/migrations/0003_catalog_write.sql:11-18 | of all concurrent updates sent with one expected revision at most one commits |
| `SaveAnswers.EveryRefusalIsSerial` | database/migrations/0003_catalog_write.sql:10-52 | whatever the interleaving, a refused session answers what the same save alone would get on the tables committed at that moment |
| `SaveAnswers.EnteredIsAnswered` | database/migrations/0003_catalog_write.sql:10-16 | in every reachable state a session holding its row can go on exactly when the committed revision is the expected one, and can answer REVISION_CONFLICT exactly when it is not |
| `SaveAnswers.WritingIsAnswered` | database/migrations/0003_catalog_write.sql:17-52 | in every reachable state a session among its statements commits, runs the next one, waits for a slug or SKU another session has written, or answers what the save alone would get on the committed tables; it can commit only if that is no objection |
| `SaveAnswers.CallsAreTakenUp` | database/migrations/0003_catalog_write.sql:10-12 | a validated call is begun when no session has its product, and a product that is not there is answered |
| `SaveAnswers.ConflictMeansStale` | database/migrations/0003_catalog_write.sql:14-16 | REVISION_CONFLICT is the answer exactly when the product is there at another revision than the expected one |
| `SaveAnswers.ConflictHasWinner` | database/migrations/0003_catalog_write.sql:14-18 | a caller who read the revision it sends is refused with a conflict only if, since that read, another update with the same expected revision has committed |
| `CatalogSaveSpec.SchemaIsProjectable` | database/migrations/0002_catalog.sql:103-114 | the orderings by SKU and by position are strict, so the document is determined |
| `CatalogDocument.DocumentFields` | database/migrations/0002_catalog.sql:105-106 | id, slug, status, revision and brand are those of the row |
| `CatalogDocument.DocumentCategories` | database/migrations/0002_catalog.sql:107 | exactly the linked categories, each once, in ascending order of their ids |
| `CatalogDocument.DocumentTranslations` | database/migrations/0002_catalog.sql:108 | exactly the stored translations |
| `CatalogDocument.DocumentVariants` | database/migrations/0002_catalog.sql:109-111 | exactly the variant rows of the product, each once, by ascending SKU, with SKU, name, price in MDL, availability and attributes as stored |
| `CatalogDocument.DocumentImages` | database/migrations/0002_catalog.sql:112 | exactly the images of the product, each once, by ascending position, with the addresses of the three sizes |
| `CatalogRoundTrip.EditorDraftOk` | apps/admin/src/lib/catalog.ts:21-37 | the draft of a product's document passes validation exactly when the product has at most fifty variants, retired ones counted, and an available one if it is active |
| `CatalogRoundTrip.SaveBackExactly` | database/migrations/0003_catalog_write.sql:14-48 | in every reachable state, saving it back at the current revision succeeds, the row by row SKU checks included, exactly when the product has at most fifty variants, a revision below the greatest, an available variant if active, and the user is known |
| `CatalogRoundTrip.SaveBackChangesRevisionOnly` | database/migrations/0003_catalog_write.sql:17-47 | it changes no table but the revision and one audit row |
| `CatalogRoundTrip.RoundTrip` | database/migrations/0002_catalog.sql:103-114 | under exactly those conditions the save succeeds, and the document afterwards is the same, one revision later |
| `CatalogLimits.EveryVariantCountIsReached` | database/migrations/0003_catalog_write.sql:29-41 | for every n there are ids for, a run of accepted saves from the empty tables reaches a product with n variants |
| `CatalogLimits.FiftyOneVariantsAreReached` | services/api/src/modules/catalog/CatalogService.cpp:56 | so fifty-one variants are reached, with the ids given |
| `CatalogLimits.FullShelfIsNotSavedBack` | services/api/src/modules/catalog/CatalogService.cpp:56 | and from there the document as it was read is neither valid nor accepted |
| `CatalogLimits.FiftyOneVariantsAreStuck` | apps/admin/src/lib/catalog.ts:21-37 | there is such a run and such a document: it goes back as it was read, at the current revision, and is refused |
| `CatalogLimits.ReturnIsSent` | apps/admin/src/lib/catalog.ts:21-37 | in any reachable state the document of any product can be sent back at its current revision |
| `CatalogLimits.EveryRevisionIsReached` | database/migrations/0003_catalog_write.sql:17-18 | saved back again and again a product reaches every revision up to the greatest |
| `CatalogLimits.GreatestRevisionIsReached` | database/migrations/0002_catalog.sql:50 | a run from the empty tables reaches the greatest revision with all invariants intact |
| `CatalogLimits.LastRevisionIsAborted` | database/migrations/0003_catalog_write.sql:17-18 | and there saving the document back, valid as it is, is aborted |
| `CatalogLimits.GreatestRevisionIsStuck` | database/migrations/0003_catalog_write.sql:17-18 | there is such a run and such a document: valid, sent back at the current revision, aborted |
| `CatalogQuery.FilteredExactly` | services/api/src/modules/catalog/CatalogRepository.cpp:8-17 | join, filters, grouping and min give one row for each product with the filters met and a visible variant in range, with the least such price, and no other row |
| `CatalogQuery.RowListedExactly` | services/api/src/modules/catalog/CatalogRepository.cpp:8-17 | the same without a predicate of the query: a row is there exactly when the product exists with that translation, is active or an administrator asks, answers the search text, is in the category, is of the brand, and a variant that may be seen has a price in range; the row's price is the least of those |
| `CatalogQuery.MatchesExactly` | services/api/src/modules/catalog/CatalogRepository.cpp:8-17 | a product matches exactly when it has such a row |
| `CatalogQuery.TotalCountsMatches` | services/api/src/modules/catalog/CatalogRepository.cpp:26 | the total is the number of matching products |
| `CatalogPages.KeyOrderIsTotal` | services/api/src/modules/catalog/CatalogRepository.cpp:19-23 | the ORDER BY with its CASE columns is a strict total order on rows |
| `CatalogPages.ListingIsOrdered` | services/api/src/modules/catalog/CatalogRepository.cpp:18-24 | the listing is ordered by sort key, then newest first, then id |
| `CatalogPages.PagesCoverListing` | services/api/src/modules/catalog/CatalogRepository.cpp:18-27 | pages 1 to ceil(total / limit) concatenate to every match exactly once, in order |
| `CatalogPages.PageExactly` | services/api/src/modules/catalog/CatalogRepository.cpp:23-27 | a page holds `limit` matches from number (page - 1) * limit on, in the order of the listing, fewer only at the end |
| `CatalogPages.PagesAreNeeded` | apps/storefront/src/pages/sitemaps/[page].xml.ts:18-19 | the number of pages is the least that holds every match |
| `CatalogPages.ListedIffMatches` | services/api/src/modules/catalog/CatalogRepository.cpp:6-29 | a product is on one of enough pages exactly when it matches |
| `CatalogPublic.PublicDocument` | services/api/src/modules/catalog/CatalogService.cpp:34-38 | the variants become the available ones, order kept, the rest of the document unchanged |
| `CatalogPublic.AvailableMeans` | services/api/src/modules/catalog/CatalogService.cpp:34-38 | a variant is shown exactly when it was there and is available |
| `CatalogPublic.PublicDocumentsHaveVariants` | services/api/src/modules/catalog/CatalogService.cpp:83-94 | no public document has an empty variant list |
| `CatalogPublic.RunKeepsPublication` | services/api/src/modules/catalog/CatalogService.cpp:57-68 | after every run of saves each product can be shown, and if the drafts stay on sale every active product is on show |
| `CatalogPublic.PublicTotal` | services/api/src/modules/catalog/CatalogRepository.cpp:10-16 | in both locales the unfiltered public total counts the products on show, and it is the number of active products exactly when each has an available variant |
| `CatalogPublic.FoundIffOnShow` | services/api/src/modules/catalog/CatalogService.cpp:88-94 | a key is found publicly exactly when a product on show carries it as its slug, the guard on the key included |
| `CatalogPublic.FoundExactly` | services/api/src/modules/catalog/CatalogRepository.cpp:30-34 | a key is found exactly when it has 1 to 160 bytes and is the slug of an active product with an available variant |
| `CatalogPublic.FoundIffListed` | services/api/src/modules/catalog/CatalogService.cpp:78-94 | within the page cap, a product is found by slug exactly when it is on a page of the unfiltered public list |
| `Sitemap.SitemapPage` | apps/storefront/src/pages/sitemaps/[page].xml.ts:4-24 | which pages are served and, through the loop and the unshift, what they list |
| `Sitemap.SitemapIsComplete` | apps/storefront/src/pages/sitemap.xml.ts:12-17 | all listed pages are served and together hold the four static paths and one path per locale and match, 2 * total + 4, none twice |
| `Sitemap.SitemapEntriesExactly` | apps/storefront/src/pages/sitemaps/[page].xml.ts:20-25 | what is listed, address by address: the four static ones and, for each active product with an available variant, its page in both languages |
| `Sitemap.SitemapListsFindable` | apps/storefront/src/pages/sitemaps/[page].xml.ts:13-24 | a product's path is listed exactly when its slug is publicly findable |
| `ExecutorQueue.Executor.Submit` | services/api/src/platform/Executor.hpp:32-36 | refused when stopping or full, otherwise appended, never more than 64 |
| `ExecutorQueue.Executor.Take` | services/api/src/platform/Executor.hpp:17-22 | waits, leaves or takes the front task, as the predicate and the exit test say |
| `ExecutorQueue.Executor.Stop` | services/api/src/platform/Executor.hpp:28 | stopping is set, the queue stays |
| `ExecutorThreads.StepKeepsInv` | services/api/src/platform/Executor.hpp:14-36 | every step keeps: tasks start in submission order, each once, at most 64 queued; while a worker waits, at least as many are woken or at the lock as tasks are queued; workers exit only when stopping with an empty queue |
| `ExecutorThreads.RunKeepsInv` | services/api/src/platform/Executor.hpp:14-36 | so every reachable state has all of that, spurious wakeups included |
| `ExecutorThreads.SubmissionMeans` | services/api/src/platform/Executor.hpp:32-36 | a task is accepted exactly while the executor is open and fewer than 64 are queued, and goes to the end |
| `ExecutorThreads.ThreadsGoOn` | services/api/src/platform/Executor.hpp:14-36 | the destructor can begin at any time, a worker at the lock takes its turn, a running task ends, a waiting worker may wake, and a task can be handed in |
| `ExecutorThreads.NothingAcceptedAfterStop` | services/api/src/platform/Executor.hpp:34 | nothing is accepted once stopping is set |
| `ExecutorThreads.ReturnedMeansDone` | services/api/src/platform/Executor.hpp:27-31 | when the destructor returns every accepted task has finished exactly once |
| `ExecutorThreads.QueuedTaskCanStart` | services/api/src/platform/Executor.hpp:18-21 | no lost wakeup: tasks queued and nobody running one means some worker is at the lock and starts the first task |
| `ExecutorThreads.RankFalls` | services/api/src/platform/Executor.hpp:27-31 | after stopping every step but a refused submission lowers a rank |
| `ExecutorThreads.ShutdownGoesOn` | services/api/src/platform/Executor.hpp:27-31 | and such a step exists until the destructor has returned |
| `ExecutorThreads.ShutdownIsBounded` | services/api/src/platform/Executor.hpp:27-31 | so a shutdown is at most as long as its rank |
| `Dispatch.HappeningKeepsInv` | services/api/src/platform/Endpoint.hpp:8-24 | accepted and refused requests, replies and running tasks stay in balance |
| `Dispatch.RunningTaskHasOwner` | services/api/src/platform/Endpoint.hpp:10-22 | every finishing task has a request to answer |
| `Dispatch.OneReplyEach` | services/api/src/platform/Endpoint.hpp:8-24 | each request has at most one reply at any moment and exactly one once the executor is gone |
| `DispatchReplies.RefusedMeansBusy` | services/api/src/platform/Endpoint.hpp:10-23 | over every story a request that arrives while the executor is stopping or has 64 tasks queued is answered 503 BUSY and nothing else |
| `DispatchReplies.AcceptedGetsItsOwn` | services/api/src/platform/Endpoint.hpp:10-22 | a request that arrives with room is answered nothing but how the work of its own task ended: the response, the error thrown, 503 DATABASE_UNAVAILABLE or 500 INTERNAL_ERROR |
| `DispatchReplies.DeskGoesOn` | services/api/src/platform/Endpoint.hpp:8-24 | in every reachable state a request can arrive and a running task can end in each of the four ways |
| `OutboxTable.Outbox.ParkUnhandledBatch` | services/worker/src/OutboxRepository.cpp:6-24 | alone at the table, the first twenty eligible rows in order are parked and nothing else changes |
| `OutboxTable.ScanExactly` | services/worker/src/OutboxRepository.cpp:11-13 | the query visits exactly the waiting events that are due, each once, the one due first before the others and the older of two due together |
| `OutboxWorkers.StepKeepsLocks` | services/worker/src/OutboxRepository.cpp:10-15 | with the re-check after each lock, every locked row still satisfies the WHERE clause and belongs to one batch |
| `OutboxWorkers.RunKeepsInv` | services/worker/src/OutboxRepository.cpp:9-22 | locks and history stay sound over every interleaving and crash |
| `OutboxWorkers.WorkersGoOn` | services/worker/src/OutboxRepository.cpp:10-21 | no worker is stuck: it begins with any order of the query, visits the next row while it has room for it, and otherwise commits |
| `OutboxWorkers.BatchesAreDisjoint` | services/worker/src/OutboxRepository.cpp:14 | in-flight batches are disjoint and at most twenty long |
| `OutboxWorkers.AttemptsAreBatches` | services/worker/src/OutboxRepository.cpp:16-20 | attempts count committed batches; dead-lettering comes exactly with the fifth and ends it; nothing is marked processed; a parked event carries the error code |
| `OutboxWorkers.ParkingsAreSpaced` | services/worker/src/OutboxRepository.cpp:12-18 | two parkings of one event start at least sixty seconds apart |
| `OutboxFairness.PollShrinksQueue` | services/worker/src/OutboxRepository.cpp:12-18 | a poll that passes an eligible event over moves twenty from ahead of it to behind it |
| `OutboxFairness.TakenInTime` | services/worker/src/OutboxRepository.cpp:10-21 | with k events in line before it, those inserted early counted in, an eligible event is taken within k/20 + 1 polls |
| `OutboxFairness.PollSpendsItsBatch` | services/worker/src/OutboxRepository.cpp:16-20 | the parkings left, summed over pending events, fall by exactly the batch size |
| `OutboxFairness.RunBalance` | services/worker/src/OutboxRepository.cpp:10-21 | over a run, work left plus parkings equals work at the start plus five per arrival |
| `OutboxFairness.PollingIsFinite` | services/worker/src/OutboxRepository.cpp:10-21 | no run from an empty table parks more than five times per arrival |
| `OutboxWaiting.TakenByCommits` | services/worker/src/OutboxRepository.cpp:10-22 | any number of workers: with k events in line before it, those inserted early counted in, an eligible event is in somebody's batch before k/4 + 1 statements begun since have committed, whatever waits, crashes and restarts |
| `OutboxWaiting.TakenByBriskCommits` | services/worker/src/OutboxRepository.cpp:12-18 | and before k/20 + 1 of them, as with one poller, while no statement takes as long as the retry delay |
| `OutboxWaiting.PassingOverTakesTwenty` | services/worker/src/OutboxRepository.cpp:12-14 | a statement that began while the event waited and commits without it holds twenty rows that were ahead of it |
| `MigrationPlan.BelowLatest` | infra/scripts/migration-plan.mjs:10-20 | comparing with the greatest applied version asks whether any applied version is greater |
| `MigrationPlan.SortIsOrderedPermutation` | infra/scripts/migration-plan.mjs:11-12 | sorting keeps every file and orders by the comparator |
| `MigrationPlan.WellFormedIsPattern` | infra/scripts/migration-plan.mjs:14 | the name test accepts exactly four digits, an underscore, letters, digits or underscores, and ".sql" |
| `MigrationPlan.BelowExactly` | infra/scripts/migration-plan.mjs:10 | code-unit order: the first difference decides and a prefix comes first |
| `MigrationPlan.NumbersDecide` | infra/scripts/migration-plan.mjs:19 | so of two well-formed names the smaller number comes first |
| `MigrationPlan.AcceptsExactly` | infra/scripts/migration-plan.mjs:3-23 | accepted exactly when no applied file is missing and every file is well named, unchanged and not a late insertion |
| `MigrationPlan.RefusalMeans` | infra/scripts/migration-plan.mjs:8-20 | each refusal names a file, and what it says is true of it |
| `MigrationPlan.FirstFileDecides` | infra/scripts/migration-plan.mjs:13-20 | the first file in order with a fault decides, its name before its contents and its contents before its place |
| `MigrationPlan.AcceptedPlanShape` | infra/scripts/migration-plan.mjs:11-22 | the result is the files in ascending order, the applied entries are the history and form a prefix |
| `MigrationRunner.Target.RunOne` | infra/scripts/migrate.mjs:36-54 | one migration: script and history row together, or neither |
| `MigrationRunner.Target.Apply` | infra/scripts/migrate.mjs:34-55 | the loop runs the unapplied files in order up to the first failure and records exactly those |
| `MigrationRunner.PlanResumes` | infra/scripts/migration-plan.mjs:3-23 | with the history a prefix of the files, planning succeeds in whatever order directory and table are read |
| `MigrationRunner.StepKeepsInv` | infra/scripts/migrate.mjs:17-66 | every step of every runner keeps: database and history are one prefix, one lock holder, plans and listings fit |
| `MigrationRunner.DatabaseIsAPrefix` | infra/scripts/migrate.mjs:34-55 | over all interleavings and crashes the database is the fold of a prefix of the sorted files and the history is that prefix, none twice |
| `MigrationRunner.OneRunnerAtATime` | infra/scripts/migrate.mjs:16-18 | at most one runner is past the advisory lock |
| `MigrationRunner.PlanningSucceeds` | infra/scripts/migrate.mjs:31-35 | in every reachable state planning succeeds and goes on after the last applied file |
| `MigrationRunner.UnappliedFalls` | infra/scripts/migrate.mjs:36-43 | only a commit lowers the number of unapplied files, by one |
| `MigrationRunner.FinishedMeansApplied` | infra/scripts/migrate.mjs:34-55 | a runner that ends its loop has everything it listed in the history |
| `MigrationRunner.RunnerGoesOn` | infra/scripts/migrate.mjs:17-66 | a runner past the lock always has a next step |
| `MigrationRunner.ReadsComeInAnyOrder` | infra/scripts/migrate.mjs:23-33 | directory and history may be read in any order, and a runner may die anywhere |
| `MigrationRunner.WorkBringsNearer` | infra/scripts/migrate.mjs:34-55 | and each of its steps lowers what it has left |
| `Throttle.KeysAreApart` | services/api/src/modules/auth/Auth.cpp:52-53 | email and address keys never meet, and the limits are 10 and 50 |
| `Throttle.SameEmailExactly` | services/api/src/modules/auth/Auth.cpp:50-52 | two emails share a counter exactly when they differ at most in the case of letters A to Z |
| `Throttle.SameAddressExactly` | services/api/src/modules/auth/Auth.cpp:52 | two addresses share a counter exactly when they are equal |
| `Throttle.Gatekeeper.ConsumeAttempt` | services/api/src/modules/auth/AuthRepository.cpp:17-26 | the upsert: a new window at or after `resets_at`, otherwise one more attempt |
| `Throttle.Gatekeeper.Login` | services/api/src/modules/auth/Auth.cpp:47-55 | what reaches the password check and which counters each outcome has charged |
| `Throttle.GrantsAreBounded` | services/api/src/modules/auth/AuthRepository.cpp:20-22 | any sequence of statements, run late by at most some lag: on any interval that with the lag is no longer than m windows, at most m + 1 times the limit is granted |
| `Throttle.GrantsPerWindow` | services/api/src/modules/auth/Auth.cpp:52-55 | at most 10 and 50 in one window |
| `Throttle.PasswordChecksPerInterval` | services/api/src/modules/auth/Auth.cpp:52-58 | on such an interval at most 10 (m + 1) per email and 50 (m + 1) per address reach the password check, logins interleaved: 20 and 100 in fifteen minutes without lag |
| `Throttle.BoundIsReached` | services/api/src/modules/auth/AuthRepository.cpp:19-22 | without lag the bound is reached, for every m |
| `Throttle.ReadmittedAtReset` | services/api/src/modules/auth/AuthRepository.cpp:21-22 | attempts made before `resets_at` do not move it, and the first one after it is granted |
| `Decimals.FromChars` | services/api/src/platform/Config.cpp:21-23 | digits only, and a value that fits |
| `Decimals.Printed` | services/api/src/platform/Config.cpp:54 | printing a number gives digits that read back as it |
| `ConnectionString.Quote` | services/api/src/platform/Config.cpp:28-35 | the loop escapes quotes and backslashes between two quotes |
| `ConnectionString.QuotedScanned` | services/api/src/platform/Config.cpp:28-35 | the parser reads a quoted value back, whatever follows |
| `ConnectionString.Number` | services/api/src/platform/Config.cpp:17-26 | accepts exactly the numbers in range, or the default |
| `ConnectionString.TextParsed` | services/api/src/platform/Config.cpp:53-57 | parsing any assembled settings gives back every keyword with its value |
| `ConnectionString.Assemble` | services/api/src/platform/Config.cpp:53-57 | the concatenation is the settings in order |
| `ConnectionString.Load` | services/api/src/platform/Config.cpp:38-62 | succeeds exactly on the acceptable environments, and with which fields |
| `ConnectionString.LoadOkExactly` | services/api/src/platform/Config.cpp:9-62 | which environments are accepted, variable by variable, verify-full in production and staging included |
| `ConnectionString.VerifiedOutsideDevelopment` | services/api/src/platform/Config.cpp:51-57 | in production and staging libpq reads sslmode=verify-full and the configured root certificate |
| `ConnectionString.ConnectionRoundTrip` | services/api/src/platform/Config.cpp:53-57 | libpq reads exactly the configured settings out of the string, and the port is the port meant |
| `ConnectionString.AssemblyIsInjective` | services/api/src/platform/Config.cpp:53-57 | equal strings mean equal settings |
| `Media.Service.Store` | services/api/src/modules/media/Media.cpp:7-40 | which failures leave which objects, and that a row appears only after all three sizes are stored |
| `Media.KeysApart` | services/api/src/modules/media/Media.cpp:31 | no two sizes and no two images share a key |
| `Media.RecordedMeansStored` | services/api/src/modules/media/Media.cpp:21-36 | in every run an image that has a row has its three sizes stored, under the keys written out |
| `Media.UploadsGoOn` | services/api/src/modules/media/Media.cpp:21-36 | an upload stores its next size, is recorded once all three are stored, and can fail at any point |
| `Media.StepKeepsSound` | services/api/src/modules/media/Media.cpp:21-36 | every step of interleaved uploads and saves keeps: recorded media have all sizes stored |
| `Media.DocumentsNameStoredObjects` | database/migrations/0002_catalog.sql:112 | in every run every image address of every document names a stored object |
| `Media.PublicImagesArePublished` | services/api/src/modules/media/Media.cpp:41-43 | every image of a document the public gets, from the list or by slug, counts as published |
| `Media.PublishedAfterSave` | services/api/src/modules/media/Media.cpp:41-43 | after an accepted save an image is public exactly when the draft is active and lists it or another active product shows it |

## Left out

- HTTP routing, headers, cookies, logging, health checks, sessions and permissions: plumbing around the modelled calls.
- JSON type errors: drafts, documents and parameters are typed values; missing members are not modelled.
- Strings are sequences of Unicode scalar values without NUL; a price is an integer.
- `updated_at`, and audit rows other than those of products.
- UUID collisions and spellings other than the 8-4-4-4-12 pattern (PostgreSQL also takes braces).
- Text search and ILIKE in `list`: an arbitrary predicate on the translation.
- The image set attribute is a list of addresses with widths, not one string.
- `addReference`, `metadata` and the parent of a category: a step that adds references is all the catalog needs.
- SaveConcurrency.EveryRunIsSerial: a variant's upsert with its attributes is one step; a session that would wait for a unique index is a step not yet possible; deadlocks, time-outs and lost connections are aborts, which answer nothing.
- OutboxWorkers.RunKeepsInv: rows are locked one at a time, the UPDATE and its commit are one step.
- ExecutorThreads.RunKeepsInv: a critical section is one step, which the mutex guarantees; tasks end.
- Dispatch.OneReplyEach: work that throws something other than a `std::exception` is excluded.
- MigrationRunner.DatabaseIsAPrefix: a script is an arbitrary function of the database that its transaction undoes; files added under an earlier number are refused by the plan and not part of the run model.
- Throttle.PasswordChecksPerInterval: counters are unbounded integers, and keys with different texts are taken to have different hashes.
- ConnectionString.Load: every refusal is one `None`; which of several bad variables is named first is not modelled.
- Media.Service.Store: decoding, resizing and encoding are inputs that may fail; abandoned objects of failed uploads stay in storage, as in the code.
- Sitemap.SitemapPage: the ENABLE_INDEXING switch, time-outs and unavailable answers; the catalog is fixed while the pages are read.
- libvips, S3, Argon2id, SHA-256, the storefront and admin pages and the infrastructure scripts other than the migration runner.
