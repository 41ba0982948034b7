# Webhooks: tenant-scoped MongoDB store, subscription factory, field flags

A Dafny model of three pieces of the Deveel Webhooks service.

- **`MongoDbStoreBase`** is the generic document store over one MongoDB collection. Its options choose how tenants are kept apart. In the tenant-database mode each tenant gets its own database. In the tenant-collection mode each tenant gets its own collection. In the tenant-field mode a store sees only the documents whose tenant field equals its tenant id; "Tenant isolation" below names the two members that are not scoped.
  - The model is the class `MongoDbStore.MongoDbStoreBase`. Its collection is a sequence of documents in natural order, and it has a `disposed` flag.
  - Each driver call becomes a function on that sequence (module `MongoDbFilters`): find-first, filter, count, skip/limit, delete-one, replace-one; insert is the append in `MongoDbStore.MongoDbStoreBase.Create`.
  - Database and collection names come from templates with `{database}`, `{collection}` and `{tenant}` placeholders (module `MongoDbNames`). The substitution is `String.Replace`, modelled in module `Text` as an ordinal, left-to-right, non-overlapping replace-all.
- **`MongoDbWebhookSubscriptionFactory.Create`** maps a subscription request to the document that is stored (module `WebhookSubscriptionFactory`). It is a total function of the request and the current UTC time. Reading the document back gives the request again, except that null metadata reads back as empty.
- **`WebhookFields`** is a flags enumeration: four single-bit fields and their union `All`. It is modelled on `bv32` (module `WebhookFieldFlags`).

Files: `wrappers.dfy` (Option), `text.dfy`, `mongo_names.dfy`, `mongo_filters.dfy`, `mongo_store.dfy`, `subscription_factory.dfy`, `webhook_fields.dfy`.

External inputs are parameters:
- the clock (`utcNow` of `Create`);
- the cancellation token (a `cancelled` flag on each store operation);
- the reflective lookup of the tenant property (the store's `hasTenantProperty`).

### Tenant isolation

A store configured for one tenant is expected never to read or change another tenant's documents. In the tenant-field mode the code keeps that promise for `FindByIdAsync`, `CountAllAsync`, `GetPageAsync` and `DeleteAsync`, which all pass their filter through `NormalizeFilter`. Two members do not:
- `UpdateAsync` replaces the document with the given id whatever tenant owns it. The model follows the code, and `MongoDbStore.UpdateCrossesTenants` states the consequence.
- `AsQueryable()` returns the whole collection, unfiltered. It is not modelled (see "Left out").

A document type without the tenant property stores no tenant element. In the tenant-field mode with a non-null tenant id, such a store sees none of its own documents (`MongoDbStore.UntaggedDocumentsInvisible`).

## Model

| member | source | states |
|---|---|---|
| `Text.ReplaceAll` | src/Deveel.Webhooks.Service.MongoDb/Data/MongoDbStoreBase.cs:55-57 | `Replace` with a new value as long as the old one keeps the length; a shorter one never lengthens the string, a longer one never shortens it |
| `Text.ReplaceAllWithoutOccurrence` | src/Deveel.Webhooks.Service.MongoDb/Data/MongoDbStoreBase.cs:55-57 | a string with no occurrence of the old value is returned unchanged by `Replace` |
| `Text.ReplaceAllBySelf` | src/Deveel.Webhooks.Service.MongoDb/Data/MongoDbStoreBase.cs:55-57 | replacing a value by itself is the identity |
| `Text.LeadingOccurrence` | src/Deveel.Webhooks.Service.MongoDb/Data/MongoDbStoreBase.cs:55-57 | an occurrence at the start is replaced, and the scan resumes after it (no rescan of the new text) |
| `Text.ReplaceAllAfterFreePrefix` | src/Deveel.Webhooks.Service.MongoDb/Data/MongoDbStoreBase.cs:55-57 | a prefix in which no occurrence starts is copied verbatim, and replacement continues on the rest |
| `Text.ReplaceWhole` | src/Deveel.Webhooks.Service.MongoDb/Data/MongoDbStoreBase.cs:55-57 | a string equal to the old value becomes exactly the new value |
| `MongoDbNames.DatabaseName` | src/Deveel.Webhooks.Service.MongoDb/Data/MongoDbStoreBase.cs:51-58 | outside the tenant-database mode the database is the configured one; in that mode, a format with neither placeholder is used verbatim |
| `MongoDbNames.CollectionName` | src/Deveel.Webhooks.Service.MongoDb/Data/MongoDbStoreBase.cs:64-69 | outside the tenant-collection mode the collection is the name asked for; in that mode, a format with neither placeholder is used verbatim |
| `MongoDbNames.GetCollection` | src/Deveel.Webhooks.Service.MongoDb/Data/MongoDbStoreBase.cs:51-72 | the tenant-database mode changes only the database name, the tenant-collection mode only the collection name, and the tenant-field mode neither |
| `MongoDbNames.SubstituteBarePlaceholder` | src/Deveel.Webhooks.Service.MongoDb/Data/MongoDbStoreBase.cs:55-57 | a template that is just the placeholder yields the name, and `{tenant}`s inside the name are substituted too |
| `MongoDbNames.SubstituteLiteralTemplate` | src/Deveel.Webhooks.Service.MongoDb/Data/MongoDbStoreBase.cs:66-68 | a template with neither placeholder is used verbatim, whatever the name and tenant |
| `MongoDbNames.LiteralTemplateKept` | src/Deveel.Webhooks.Service.MongoDb/Data/MongoDbStoreBase.cs:55-57 | any template mentioning neither placeholder comes out of the two replacements unchanged |
| `MongoDbNames.SubstituteSingleSlot` | src/Deveel.Webhooks.Service.MongoDb/Data/MongoDbStoreBase.cs:55-57 | `prefix + placeholder + suffix` yields prefix, name and suffix before the tenant substitution |
| `MongoDbNames.TenantInsideDatabaseNameSubstituted` | src/Deveel.Webhooks.Service.MongoDb/Data/MongoDbStoreBase.cs:54-57 | with the format `{database}`, a `{tenant}` inside the database name is replaced by the tenant id (by nothing when it is null) |
| `MongoDbNames.TenantPlaceholderOnlyAtEnd` | src/Deveel.Webhooks.Service.MongoDb/Data/MongoDbStoreBase.cs:57 | a `{tenant}` appended after a `_` to a string without one is the only occurrence |
| `MongoDbNames.SlotBeforeTenantSuffix` | src/Deveel.Webhooks.Service.MongoDb/Data/MongoDbStoreBase.cs:55-56 | in `<placeholder>_{tenant}` the placeholder is replaced by the name and the suffix is kept |
| `MongoDbNames.TenantSuffixSubstituted` | src/Deveel.Webhooks.Service.MongoDb/Data/MongoDbStoreBase.cs:57 | `<text>_{tenant}` becomes `<text>_<tenant>` when `<text>_` holds no `{tenant}` |
| `MongoDbNames.SubstituteSlotAndTenant` | src/Deveel.Webhooks.Service.MongoDb/Data/MongoDbStoreBase.cs:55-57 | the template `<placeholder>_{tenant}` yields `<name>_<tenant>` |
| `MongoDbNames.TenantDatabaseNameFromTemplate` | src/Deveel.Webhooks.Service.MongoDb/Data/MongoDbStoreBase.cs:54-57 | the format `{database}_{tenant}` yields the database `<database>_<tenant>` (`<database>_` for a null tenant) |
| `MongoDbNames.TenantCollectionNameFromTemplate` | src/Deveel.Webhooks.Service.MongoDb/Data/MongoDbStoreBase.cs:64-71 | the format `{collection}_{tenant}` puts the store in the configured database, in the collection `<collection>_<tenant>` |
| `MongoDbNames.TenantInsideCollectionNameSubstituted` | src/Deveel.Webhooks.Service.MongoDb/Data/MongoDbStoreBase.cs:65-68 | with the format `{collection}`, a `{tenant}` inside the collection name is replaced by the tenant id |
| `MongoDbFilters.NormalizeFilter` | src/Deveel.Webhooks.Service.MongoDb/Data/MongoDbStoreBase.cs:74-81 | a normalized filter matches exactly the documents the filter matches that the store may see (in the tenant-field mode, those whose tenant equals the store's); in other modes it is the filter itself |
| `MongoDbFilters.SetTenantId` | src/Deveel.Webhooks.Service.MongoDb/Data/MongoDbStoreBase.cs:93-98 | the tenant property gets the store's tenant id only if the document type has one; id and content are untouched |
| `MongoDbFilters.IndexOf` | src/Deveel.Webhooks.Service.MongoDb/Data/MongoDbStoreBase.cs:143-145 | the position of the first match, with no match before it; absent iff nothing matches |
| `MongoDbFilters.FindFirst` | src/Deveel.Webhooks.Service.MongoDb/Data/MongoDbStoreBase.cs:143-145 | a find with limit 1 returns a matching document of the collection, or null iff nothing matches |
| `MongoDbFilters.Where` | src/Deveel.Webhooks.Service.MongoDb/Data/MongoDbStoreBase.cs:187-188 | a find returns no more documents than the collection holds, and every one of them matches |
| `MongoDbFilters.WhereFindsOnlyMembers` | src/Deveel.Webhooks.Service.MongoDb/Data/MongoDbStoreBase.cs:187-188 | every document a find returns is a document of the collection |
| `MongoDbFilters.WhereFindsEveryMatch` | src/Deveel.Webhooks.Service.MongoDb/Data/MongoDbStoreBase.cs:187-188 | every document of the collection that matches is returned |
| `MongoDbFilters.CountDocuments` | src/Deveel.Webhooks.Service.MongoDb/Data/MongoDbStoreBase.cs:167-169 | counting gives the number of documents a find without a limit returns, never more than the collection holds |
| `MongoDbFilters.SkipLimit` | src/Deveel.Webhooks.Service.MongoDb/Data/MongoDbStoreBase.cs:182-185 | a page is the contiguous run starting at the skip; its length is 0 past the end, the rest of the sequence for limit 0 or a limit reaching the end, and exactly `limit` otherwise |
| `MongoDbFilters.SkipLimitIsSlice` | src/Deveel.Webhooks.Service.MongoDb/Data/MongoDbStoreBase.cs:182-185 | a page is the slice from the skip (capped at the end) to the skip plus the limit (capped at the end; the end itself for limit 0) |
| `MongoDbFilters.PageOfMatches` | src/Deveel.Webhooks.Service.MongoDb/Data/MongoDbStoreBase.cs:182-188 | every item of a page of a find is a document of the collection that the filter matches |
| `MongoDbFilters.DeleteOne` | src/Deveel.Webhooks.Service.MongoDb/Data/MongoDbStoreBase.cs:158-160 | delete-one removes exactly one document when something matches, and nothing otherwise |
| `MongoDbFilters.ReplaceOne` | src/Deveel.Webhooks.Service.MongoDb/Data/MongoDbStoreBase.cs:128-129 | replace-one by id keeps the size; when a document has the id, the first such is replaced and every other position is kept; otherwise nothing changes |
| `MongoDbFilters.NextId` | src/Deveel.Webhooks.Service.MongoDb/Data/MongoDbStoreBase.cs:115-117 | the id given to an inserted document is greater than, so distinct from, every id present |
| `MongoDbFilters.WhereAppend` | src/Deveel.Webhooks.Service.MongoDb/Data/MongoDbStoreBase.cs:187-188 | filtering distributes over concatenation, so results keep collection order |
| `MongoDbFilters.WhereNoneMatch` | src/Deveel.Webhooks.Service.MongoDb/Data/MongoDbStoreBase.cs:187-188 | nothing is found where nothing matches |
| `MongoDbFilters.WhereIgnoresNonMatching` | src/Deveel.Webhooks.Service.MongoDb/Data/MongoDbStoreBase.cs:187-188 | a document the filter does not match changes no result, wherever it is placed |
| `MongoDbFilters.WhereSameMatches` | src/Deveel.Webhooks.Service.MongoDb/Data/MongoDbStoreBase.cs:167-169 | filters that match the same documents find the same documents |
| `MongoDbFilters.UniqueIdMatchesOnce` | src/Deveel.Webhooks.Service.MongoDb/Data/MongoDbStoreBase.cs:139-145 | with unique ids, a document an id filter matches is the only one it matches |
| `MongoDbFilters.UniqueIdsWithout` | src/Deveel.Webhooks.Service.MongoDb/Data/MongoDbStoreBase.cs:158 | removing a document keeps ids unique |
| `MongoDbFilters.DeleteOneKeepsOthers` | src/Deveel.Webhooks.Service.MongoDb/Data/MongoDbStoreBase.cs:155-158 | delete-one leaves every document of a disjoint filter in place and in order |
| `MongoDbFilters.DeleteOneLeavesNoMatch` | src/Deveel.Webhooks.Service.MongoDb/Data/MongoDbStoreBase.cs:155-160 | with unique ids, after deleting the first match of a filter that pins one id, nothing matches the filter |
| `MongoDbFilters.ConsecutivePages` | src/Deveel.Webhooks.Service.MongoDb/Data/MongoDbStoreBase.cs:182-185 | a page followed by everything after it is everything from the page's start |
| `MongoDbFilters.FirstPageCoversAll` | src/Deveel.Webhooks.Service.MongoDb/Data/MongoDbStoreBase.cs:182-185 | a first page at least as large as the sequence is the whole sequence |
| `MongoDbStore.Refusal` | src/Deveel.Webhooks.Service.MongoDb/Data/MongoDbStoreBase.cs:88-91 | an operation is refused iff the store is disposed or cancelled; disposal gives `ObjectDisposedException`, otherwise cancellation gives `OperationCanceledException` |
| `MongoDbStore.QueryFilterMeaning` | src/Deveel.Webhooks.Service.MongoDb/Data/MongoDbStoreBase.cs:176-178 | a query's filter matches what its predicate accepts, and everything when it has none |
| `MongoDbStore.Page` | src/Deveel.Webhooks.Service.MongoDb/Data/MongoDbStoreBase.cs:172-191 | a page result carries its query, a total no larger than the collection, and never more items than the total or than a non-zero page size |
| `MongoDbStore.Inserted` | src/Deveel.Webhooks.Service.MongoDb/Data/MongoDbStoreBase.cs:105-117 | the inserted document has the given id and the entity's content, and the store's tenant when the tenant-field mode applies and the type has the tenant property, the entity's own otherwise |
| `MongoDbStore.MongoDbStoreBase.constructor` | src/Deveel.Webhooks.Service.MongoDb/Data/MongoDbStoreBase.cs:38-40 | a new store keeps its options, is not disposed, and opens a collection that already holds any documents, of any tenant, with unique ids |
| `MongoDbStore.MongoDbStoreBase.Create` | src/Deveel.Webhooks.Service.MongoDb/Data/MongoDbStoreBase.cs:105-118 | when not refused, the store grows by exactly one document at the end: the entity, stamped with the tenant in the tenant-field mode, under a fresh id that is returned; when refused, nothing changes and the error is returned |
| `MongoDbStore.MongoDbStoreBase.Update` | src/Deveel.Webhooks.Service.MongoDb/Data/MongoDbStoreBase.cs:124-132 | replaces the document with the same id, with no tenant filter; returns true iff the collection changed, so false when no document has the id or the replacement equals it; others are untouched |
| `MongoDbStore.MongoDbStoreBase.FindById` | src/Deveel.Webhooks.Service.MongoDb/Data/MongoDbStoreBase.cs:135-146 | returns the first document with the id that passes the tenant filter; null only when every document with the id belongs to another tenant |
| `MongoDbStore.MongoDbStoreBase.Delete` | src/Deveel.Webhooks.Service.MongoDb/Data/MongoDbStoreBase.cs:151-161 | removes the first visible document with the id; returns true iff such a document existed, iff the store shrank by one; afterwards no document with the id is visible |
| `MongoDbStore.MongoDbStoreBase.CountAll` | src/Deveel.Webhooks.Service.MongoDb/Data/MongoDbStoreBase.cs:163-170 | counts the tenant's documents in the tenant-field mode, all documents otherwise |
| `MongoDbStore.MongoDbStoreBase.GetPage` | src/Deveel.Webhooks.Service.MongoDb/Data/MongoDbStoreBase.cs:172-191 | when not refused, returns the page of the normalized query filter over the current collection |
| `MongoDbStore.MongoDbStoreBase.Dispose` | src/Deveel.Webhooks.Service.MongoDb/Data/MongoDbStoreBase.cs:193-195 | sets the disposed flag and touches nothing else, so disposing twice is the same as once |
| `MongoDbStore.CountAllMeaning` | src/Deveel.Webhooks.Service.MongoDb/Data/MongoDbStoreBase.cs:167-169 | counting with the normalized empty filter counts the tenant's documents in the tenant-field mode, every document otherwise |
| `MongoDbStore.WhereAll` | src/Deveel.Webhooks.Service.MongoDb/Data/MongoDbStoreBase.cs:176 | the empty filter finds every document |
| `MongoDbStore.UntaggedDocumentsInvisible` | src/Deveel.Webhooks.Service.MongoDb/Data/MongoDbStoreBase.cs:74-81 | in the tenant-field mode with a non-null tenant, documents without a tenant element are never counted |
| `MongoDbStore.PageItems` | src/Deveel.Webhooks.Service.MongoDb/Data/MongoDbStoreBase.cs:182-190 | the items of a page are exactly the visible matches from the offset up to the page size, or to the end without a page size |
| `MongoDbStore.PageMeaning` | src/Deveel.Webhooks.Service.MongoDb/Data/MongoDbStoreBase.cs:176-190 | the total counts the visible matches of the predicate; each item is in the store, visible to the tenant, and satisfies the predicate |
| `MongoDbStore.VisibleIdMatchesOnce` | src/Deveel.Webhooks.Service.MongoDb/Data/MongoDbStoreBase.cs:139-145 | with unique ids, a visible document with the id is the only match of the store's id filter, so the document a lookup by id returns is unique |
| `MongoDbStore.FirstPageHoldsAllMatches` | src/Deveel.Webhooks.Service.MongoDb/Data/MongoDbStoreBase.cs:182-190 | a first page with no page size, or one at least the number of visible matches, lists every visible match in collection order |
| `MongoDbStore.OtherTenantInvisible` | src/Deveel.Webhooks.Service.MongoDb/Data/MongoDbStoreBase.cs:167-180 | in the tenant-field mode, another tenant's document changes neither the count nor any page |
| `MongoDbStore.DeleteSparesOtherTenants` | src/Deveel.Webhooks.Service.MongoDb/Data/MongoDbStoreBase.cs:155-158 | in the tenant-field mode, deletion leaves every document of every other tenant in place |
| `MongoDbStore.UpdateCrossesTenants` | src/Deveel.Webhooks.Service.MongoDb/Data/MongoDbStoreBase.cs:128-129 | a document the store cannot find by its id is still overwritten by a replacement with that id, and the collection then changes whenever the replacement differs from the stored document |
| `WebhookSubscriptionFactory.MapFilter` | src/Deveel.Service.Webhooks.MongoDb/Webhooks/MongoDbWebhookSubscriptionFactory.cs:31-35 | a stored filter field keeps the expression and the format, and reads back as the same filter |
| `WebhookSubscriptionFactory.MapFilters` | src/Deveel.Service.Webhooks.MongoDb/Webhooks/MongoDbWebhookSubscriptionFactory.cs:23 | filters map one-to-one and in order, each keeping expression and format |
| `WebhookSubscriptionFactory.Create` | src/Deveel.Service.Webhooks.MongoDb/Webhooks/MongoDbWebhookSubscriptionFactory.cs:7-28 | status is Active iff the request is active (None otherwise, never Suspended); the status time is now or MinValue; name, retry count, secret, event types and headers are copied (null stays null); the URL is its string form; metadata is never null |
| `WebhookSubscriptionFactory.UnmapFilters` | src/Deveel.Service.Webhooks.MongoDb/Webhooks/MongoDbWebhookSubscriptionFactory.cs:31-35 | reading stored filters back keeps their number |
| `WebhookSubscriptionFactory.FiltersRoundTrip` | src/Deveel.Service.Webhooks.MongoDb/Webhooks/MongoDbWebhookSubscriptionFactory.cs:31-35 | mapping filters and reading them back gives the same filters |
| `WebhookSubscriptionFactory.CreateRoundTrip` | src/Deveel.Service.Webhooks.MongoDb/Webhooks/MongoDbWebhookSubscriptionFactory.cs:7-28 | reading a created document back yields the request; the only loss is that null metadata becomes empty |
| `WebhookSubscriptionFactory.CreateInjective` | src/Deveel.Service.Webhooks.MongoDb/Webhooks/MongoDbWebhookSubscriptionFactory.cs:7-28 | requests with metadata that create the same document at the same time are equal |
| `WebhookSubscriptionFactory.InactiveIgnoresClock` | src/Deveel.Service.Webhooks.MongoDb/Webhooks/MongoDbWebhookSubscriptionFactory.cs:17-19 | an inactive request's document does not depend on the clock; its status time is MinValue |
| `WebhookSubscriptionFactory.SingleFilterKept` | src/Deveel.Service.Webhooks.MongoDb/Webhooks/MongoDbWebhookSubscriptionFactory.cs:23 | a request with one wildcard filter yields a document with exactly one wildcard filter |
| `WebhookFieldFlags.NoneIsEmpty` | src/Deveel.Webhooks/Webhooks/WebhookFields.cs:24 | `None` is 0: contained in every value, neutral for OR, containing only itself |
| `WebhookFieldFlags.FieldsAreDisjointBits` | src/Deveel.Webhooks/Webhooks/WebhookFields.cs:25-28 | each field is a single non-zero bit, and distinct fields share no bit |
| `WebhookFieldFlags.AllIsUnionOfFields` | src/Deveel.Webhooks/Webhooks/WebhookFields.cs:29 | `All` is 15, the OR of the four fields, and contains each of them |
| `WebhookFieldFlags.CombinationWithinAll` | src/Deveel.Webhooks/Webhooks/WebhookFields.cs:22-29 | any OR of fields is a subset of `All`, and OR-ing it with `All` gives `All` |
| `WebhookFieldFlags.CombinationHasFlagIff` | src/Deveel.Webhooks/Webhooks/WebhookFields.cs:22-29 | an OR of fields has a field's flag iff that field is one of those combined |

## Left out

- The MongoDB client created from the connection string (`CreateClient`, `Client`), `SupportsPaging` and the facade-typed overloads that only cast. They are driver plumbing with no behaviour of the store's own.
- `AsQueryable()` (line 100). It hands out the whole collection as a LINQ queryable. Nothing filters it by tenant, and LINQ providers are not modelled.
- Sharing a collection. Each store object holds its collection's documents itself. Two stores opened on the same MongoDB collection, and writes by other clients between calls, are not modelled. The constructor takes the documents already there.
- `ObjectId.Parse` in `FindByIdAsync`, and its failure on a malformed id. `FindById` takes the id itself.
- `IsModifiedCountAvailable`. Writes are taken as acknowledged, so the modified count is always available.
- MongoDbStore.MongoDbStoreBase.Create: the store assigns a fresh id (one greater than every id present) rather than modelling driver-side `ObjectId` generation, so a caller-set id and the duplicate-key error are not modelled.
- MongoDbStore.MongoDbStoreBase.Create: `SetTenantId` also mutates the caller's object, and the driver writes the id into it. Here documents are values, so that aliasing is not captured. The caller learns the id from the result.
- The reflective lookup of the tenant property. It is the store's constant `hasTenantProperty`. A document's tenant is one slot: its tenant property's value, or null.
- Document types are values. The store's type parameter holds no object references (`T(!new)`), so documents compare by value. A document of a type without the tenant property carries no tenant: `OfDocumentType` states it, and `Create`, `Update` and the constructor require it of what they are given, as the C# type does.
- Query predicates are Dafny functions on documents, not LINQ expression trees. Their translation by the driver is not modelled.
- `Task`/`async` and the `CancellationToken`. Cancellation is a flag sampled when the operation starts. It is checked after disposal, as in the code.
- The collection's natural order is taken to be insertion order. MongoDB does not guarantee that without a sort.
- MongoDbStore.MongoDbStoreBase.CountAll: the `(int)` cast of the 64-bit count is not modelled; counts are unbounded.
- MongoDbStore.MongoDbStoreBase.GetPage: the `(int)` cast of the 64-bit total (line 190) is not modelled either; the total is unbounded.
- Null option strings. The database name, the formats and the tenant field are strings, never null. A null format makes `Replace` throw (lines 55 and 66), which is not modelled. A null tenant id is modelled: it removes `{tenant}`.
- `PagedQuery` and `PagedResult` are not part of this model. So the computation of `Offset` from a page number, `TotalPages`, and negative skip or limit values are out. The offset and page size are natural numbers, and a page size of 0 means no limit, as the driver treats `Limit = 0`.
- The definition of `MongoDbMultiTenancyHandling` is not part of this model. Only the three modes the store tests for are modelled.
- WebhookSubscriptionFactory.Create: the request's destination URL is never null and its filter list holds no null element. With a null URL, `DestinationUrl.ToString()` (line 11) throws `NullReferenceException`, and so does `MapFilter` (lines 31-35) on a null filter. Those exceptions are not modelled; the model's `Create` is total.
- The factory: `Uri.ToString()` canonicalisation is not modelled (the URL is its text). `DateTimeOffset` is its UTC ticks only. The fresh dictionaries for headers and metadata are values, so their independence from the request's dictionaries is not captured.
- `WebhookFilter.WildcardFilter` and `IsWildcard` are not part of this model. The wildcard test is a parameter of `SingleFilterKept`, over a filter's expression and format.
- The subscription manager (enable, disable, remove, not-found errors). Its source is not part of this model.
- Notification dispatch, filter evaluation, enrichment, signing, HTTP delivery and retry. Their sources are not part of this model, and they are I/O- and concurrency-bound.
- `ServiceCollectionExtensions`, `DefaultWebhookSubscriptionResolver`, `IWebhookNotifier` and `IWebhookDataFactory`. They are dependency-injection wiring, a one-line delegation, and interfaces.
