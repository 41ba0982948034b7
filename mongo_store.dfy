/**
  `MongoDbStoreBase`: a store of documents in one MongoDB collection,
  scoped to the tenant its options name, over an in-memory collection.
 */
module MongoDbStore {
  import opened Wrappers
  import opened MongoDbNames
  import opened MongoDbFilters

  /** The exceptions every operation may throw before touching the collection. */
  datatype StoreError = ObjectDisposed | OperationCanceled

  datatype Result<R> = Ok(value: R) | Err(error: StoreError)

  /**
    `ThrowIfDisposed` followed by `ThrowIfCancellationRequested`: why an
    operation is refused, if it is.
   */
  function Refusal(disposed: bool, cancelled: bool): (e: Option<StoreError>)
    ensures e == None <==> !disposed && !cancelled
    ensures disposed ==> e == Some(ObjectDisposed)
    ensures !disposed && cancelled ==> e == Some(OperationCanceled)
  {
    if disposed then Some(ObjectDisposed)
    else if cancelled then Some(OperationCanceled)
    else None
  }

  /** A page request (`PagedQuery`): an optional predicate, the number of matches to skip and the page size (0: no limit). */
  datatype PagedQuery<!T> = PagedQuery(condition: Option<Document<T> -> bool>, offset: nat, pageSize: nat)

  datatype PagedResult<!T> = PagedResult(query: PagedQuery<T>, totalCount: nat, items: seq<Document<T>>)

  /** The query's own filter: its predicate, or the empty filter when it has none. */
  function QueryFilter<T(!new)>(query: PagedQuery<T>): FilterDefinition<T> {
    match query.condition
    case None => Empty
    case Some(p) => Expression(p)
  }

  /** A query's filter matches what its predicate accepts; without a predicate, everything. */
  lemma QueryFilterMeaning<T(!new)>(query: PagedQuery<T>, d: Document<T>)
    ensures Matches(QueryFilter(query), d) <==> (query.condition.Some? ==> query.condition.value(d))
  {
  }

  /** The filter `GetPageAsync` runs: the query's filter, normalized. */
  function PageFilter<T(!new)>(options: MongoDbOptions, query: PagedQuery<T>): FilterDefinition<T> {
    NormalizeFilter(options, QueryFilter(query))
  }

  /**
    What `GetPageAsync` returns for a collection: the count of all matches
    and one page of them, never more items than the count nor than a
    non-zero page size.
   */
  function Page<T(!new)>(options: MongoDbOptions, documents: seq<Document<T>>, query: PagedQuery<T>): (page: PagedResult<T>)
    ensures page.query == query
    ensures page.totalCount <= |documents|
    ensures |page.items| <= page.totalCount
    ensures query.pageSize > 0 ==> |page.items| <= query.pageSize
  {
    var filter := PageFilter(options, query);
    PagedResult(query, CountDocuments(documents, filter), SkipLimit(Where(documents, filter), query.offset, query.pageSize))
  }

  /**
    The document `CreateAsync` inserts: the entity under the given id,
    carrying the store's tenant when the tenant-field mode applies and the
    document type has the tenant property, and its own tenant otherwise.
   */
  function Inserted<T>(options: MongoDbOptions, hasTenantProperty: bool, entity: Document<T>, id: ObjectId): (d: Document<T>)
    ensures d.id == id && d.content == entity.content
    ensures d.tenant == if options.multiTenantHandling == TenantField && hasTenantProperty then options.tenantId else entity.tenant
  {
    var stamped := if options.multiTenantHandling == TenantField then SetTenantId(options, hasTenantProperty, entity) else entity;
    stamped.(id := id)
  }

  /**
    A value of the document type: a type without the tenant property has no
    tenant element, so its documents carry none.
   */
  predicate OfDocumentType<T>(hasTenantProperty: bool, d: Document<T>) {
    !hasTenantProperty ==> d.tenant.None?
  }

  class MongoDbStoreBase<T(==,!new)> {
    const options: MongoDbOptions
    /** The collection name the concrete store passes to `GetCollection`. */
    const collectionName: string
    /** Whether the document type has a property named `options.tenantField`. */
    const hasTenantProperty: bool

    /** The collection's documents, in natural order. */
    var documents: seq<Document<T>>
    var disposed: bool

    /** Ids are unique, and every stored document is a value of the document type. */
    ghost predicate Valid()
      reads this
    {
      && UniqueIds(documents)
      && forall k :: 0 <= k < |documents| ==> OfDocumentType(hasTenantProperty, documents[k])
    }

    /** A store over a collection that already holds `existing`, of every tenant. */
    constructor (options: MongoDbOptions, collectionName: string, hasTenantProperty: bool, existing: seq<Document<T>>)
      requires UniqueIds(existing)
      requires forall k :: 0 <= k < |existing| ==> OfDocumentType(hasTenantProperty, existing[k])
      ensures Valid()
      ensures this.options == options && this.collectionName == collectionName
      ensures this.hasTenantProperty == hasTenantProperty
      ensures documents == existing && !disposed
    {
      this.options := options;
      this.collectionName := collectionName;
      this.hasTenantProperty := hasTenantProperty;
      documents := existing;
      disposed := false;
    }

    /** The database and collection the store's documents live in (`Collection`). */
    function Collection(): CollectionNamespace {
      GetCollection(options, collectionName)
    }

    /** `CreateAsync`: inserts the entity under a fresh id and returns that id. */
    method Create(entity: Document<T>, cancelled: bool) returns (r: Result<ObjectId>)
      requires Valid() && OfDocumentType(hasTenantProperty, entity)
      modifies this
      ensures Valid() && disposed == old(disposed)
      ensures Refusal(disposed, cancelled).Some? ==>
        r == Err(Refusal(disposed, cancelled).value) && documents == old(documents)
      ensures Refusal(disposed, cancelled).None? ==>
        && r.Ok?
        && (forall k :: 0 <= k < |old(documents)| ==> old(documents)[k].id != r.value)
        && documents == old(documents) + [Inserted(options, hasTenantProperty, entity, r.value)]
    {
      var refusal := Refusal(disposed, cancelled);
      if refusal.Some? {
        return Err(refusal.value);
      }
      var id := NextId(documents);
      var inserted := Inserted(options, hasTenantProperty, entity, id);
      documents := documents + [inserted];
      assert forall k :: 0 <= k < |old(documents)| ==> old(documents)[k] in old(documents);
      r := Ok(id);
    }

    /**
      `UpdateAsync`: replaces the document with the same id, whatever its
      tenant, and reports whether the collection changed.
     */
    method Update(document: Document<T>, cancelled: bool) returns (r: Result<bool>)
      requires Valid() && OfDocumentType(hasTenantProperty, document)
      modifies this
      ensures Valid() && disposed == old(disposed)
      ensures Refusal(disposed, cancelled).Some? ==>
        r == Err(Refusal(disposed, cancelled).value) && documents == old(documents)
      ensures Refusal(disposed, cancelled).None? ==>
        && documents == ReplaceOne(old(documents), document)
        && r == Ok(documents != old(documents))
    {
      var refusal := Refusal(disposed, cancelled);
      if refusal.Some? {
        return Err(refusal.value);
      }
      match IndexOf(documents, IdEquals(document.id))
      case None =>
        r := Ok(false);
      case Some(i) =>
        if documents[i] == document {
          assert documents[i := document] == documents;
          r := Ok(false);
        } else {
          ghost var before := documents;
          documents := documents[i := document];
          assert documents[i] != before[i];
          forall p, q | 0 <= p < q < |documents| ensures documents[p].id != documents[q].id {
            assert documents[p].id == before[p].id && documents[q].id == before[q].id;
          }
          r := Ok(true);
        }
    }

    /** `FindByIdAsync`: the first document with the id that the store may see. */
    method FindById(id: ObjectId, cancelled: bool) returns (r: Result<Option<Document<T>>>)
      ensures Refusal(disposed, cancelled).Some? ==> r == Err(Refusal(disposed, cancelled).value)
      ensures Refusal(disposed, cancelled).None? ==>
        r == Ok(FindFirst(documents, NormalizeFilter(options, IdEquals(id))))
      ensures r.Ok? && r.value.Some? ==>
        r.value.value in documents && r.value.value.id == id && TenantVisible(options, r.value.value)
      ensures r.Ok? && r.value.None? ==>
        forall k :: 0 <= k < |documents| && documents[k].id == id ==> !TenantVisible(options, documents[k])
    {
      var refusal := Refusal(disposed, cancelled);
      if refusal.Some? {
        return Err(refusal.value);
      }
      r := Ok(FindFirst(documents, NormalizeFilter(options, IdEquals(id))));
    }

    /**
      `DeleteAsync`: removes the first document with the document's id that
      the store may see, and reports whether one was removed.
     */
    method Delete(document: Document<T>, cancelled: bool) returns (r: Result<bool>)
      requires Valid()
      modifies this
      ensures Valid() && disposed == old(disposed)
      ensures Refusal(disposed, cancelled).Some? ==>
        r == Err(Refusal(disposed, cancelled).value) && documents == old(documents)
      ensures Refusal(disposed, cancelled).None? ==>
        && documents == DeleteOne(old(documents), NormalizeFilter(options, IdEquals(document.id)))
        && r.Ok?
        && (r.value <==> |documents| == |old(documents)| - 1)
        && (r.value <==> exists k :: 0 <= k < |old(documents)| && old(documents)[k].id == document.id
                                     && TenantVisible(options, old(documents)[k]))
        && (forall k :: 0 <= k < |documents| && documents[k].id == document.id ==> !TenantVisible(options, documents[k]))
    {
      var refusal := Refusal(disposed, cancelled);
      if refusal.Some? {
        return Err(refusal.value);
      }
      var filter := NormalizeFilter(options, IdEquals(document.id));
      DeleteOneLeavesNoMatch(documents, filter, document.id);
      match IndexOf(documents, filter)
      case None =>
        r := Ok(false);
      case Some(i) =>
        UniqueIdsWithout(documents, i);
        documents := documents[..i] + documents[i + 1..];
        r := Ok(true);
    }

    /** `CountAllAsync`: the number of documents the store may see. */
    method CountAll(cancelled: bool) returns (r: Result<nat>)
      ensures Refusal(disposed, cancelled).Some? ==> r == Err(Refusal(disposed, cancelled).value)
      ensures Refusal(disposed, cancelled).None? ==>
        r == Ok(CountDocuments(documents, NormalizeFilter(options, Empty)))
      ensures r.Ok? && options.multiTenantHandling == TenantField ==>
        r.value == |Where(documents, TenantEquals(options.tenantId))|
      ensures r.Ok? && options.multiTenantHandling != TenantField ==> r.value == |documents|
    {
      var refusal := Refusal(disposed, cancelled);
      if refusal.Some? {
        return Err(refusal.value);
      }
      r := Ok(CountDocuments(documents, NormalizeFilter(options, Empty)));
      CountAllMeaning(options, documents);
    }

    /** `GetPageAsync`: the number of matches the store may see, and one page of them. */
    method GetPage(query: PagedQuery<T>, cancelled: bool) returns (r: Result<PagedResult<T>>)
      ensures Refusal(disposed, cancelled).Some? ==> r == Err(Refusal(disposed, cancelled).value)
      ensures Refusal(disposed, cancelled).None? ==> r == Ok(Page(options, documents, query))
    {
      var refusal := Refusal(disposed, cancelled);
      if refusal.Some? {
        return Err(refusal.value);
      }
      r := Ok(Page(options, documents, query));
    }

    /** `Dispose`: from now on every operation is refused. */
    method Dispose()
      modifies this
      ensures disposed && documents == old(documents)
    {
      disposed := true;
    }
  }

  // ---- Lemmas about the store's queries ----

  /** The count of all documents: the tenant's documents in the tenant-field mode, all of them otherwise. */
  lemma CountAllMeaning<T(!new)>(options: MongoDbOptions, documents: seq<Document<T>>)
    ensures options.multiTenantHandling == TenantField ==>
      CountDocuments(documents, NormalizeFilter(options, Empty)) == |Where(documents, TenantEquals(options.tenantId))|
    ensures options.multiTenantHandling != TenantField ==>
      CountDocuments(documents, NormalizeFilter(options, Empty)) == |documents|
  {
    if options.multiTenantHandling == TenantField {
      WhereSameMatches(documents, NormalizeFilter(options, Empty), TenantEquals(options.tenantId));
    } else {
      WhereAll(documents);
    }
  }

  /** The empty filter finds everything. */
  lemma {:induction false} WhereAll<T>(documents: seq<Document<T>>)
    ensures Where(documents, Empty) == documents
    decreases |documents|
  {
    if documents != [] {
      WhereAll(documents[1..]);
      assert documents == [documents[0]] + documents[1..];
    }
  }

  /**
    In the tenant-field mode with a non-null tenant, a store whose document
    type has no tenant property sees nothing: its documents carry no tenant.
   */
  lemma UntaggedDocumentsInvisible<T(!new)>(options: MongoDbOptions, documents: seq<Document<T>>)
    requires options.multiTenantHandling == TenantField && options.tenantId.Some?
    requires forall k :: 0 <= k < |documents| ==> OfDocumentType(false, documents[k])
    ensures CountDocuments(documents, NormalizeFilter(options, Empty)) == 0
  {
    WhereNoneMatch(documents, NormalizeFilter(options, Empty));
  }

  /**
    The items of a page are the visible matches, in collection order, from
    the offset on: the whole rest without a page size, otherwise up to the
    page size of them.
   */
  lemma PageItems<T(!new)>(options: MongoDbOptions, documents: seq<Document<T>>, query: PagedQuery<T>)
    ensures var matches := Where(documents, PageFilter(options, query));
      var lo := if query.offset <= |matches| then query.offset else |matches|;
      var hi := if query.pageSize == 0 || lo + query.pageSize >= |matches| then |matches| else lo + query.pageSize;
      Page(options, documents, query).items == matches[lo..hi]
  {
    SkipLimitIsSlice(Where(documents, PageFilter(options, query)), query.offset, query.pageSize);
  }

  /**
    A page: its total counts the matches of the predicate (every document
    when there is none) that the store may see, and each of its items is
    such a match.
   */
  lemma PageMeaning<T(!new)>(options: MongoDbOptions, documents: seq<Document<T>>, query: PagedQuery<T>)
    ensures Page(options, documents, query).totalCount == |Where(documents, PageFilter(options, query))|
    ensures forall k :: 0 <= k < |Page(options, documents, query).items| ==>
      var d := Page(options, documents, query).items[k];
      && d in documents
      && TenantVisible(options, d)
      && (query.condition.Some? ==> query.condition.value(d))
  {
    var filter := PageFilter(options, query);
    var items := Page(options, documents, query).items;
    assert items == SkipLimit(Where(documents, filter), query.offset, query.pageSize);
    PageOfMatches(documents, filter, query.offset, query.pageSize);
    forall k | 0 <= k < |items|
      ensures TenantVisible(options, items[k]) && (query.condition.Some? ==> query.condition.value(items[k]))
    {
      var d := items[k];
      assert Matches(filter, d);
      assert Matches(QueryFilter(query), d) && TenantVisible(options, d);
      QueryFilterMeaning(query, d);
    }
  }

  /**
    With unique ids, a visible document with the id is the only document
    the store's id filter matches: what `FindByIdAsync` returns is unique.
   */
  lemma VisibleIdMatchesOnce<T(!new)>(options: MongoDbOptions, documents: seq<Document<T>>, id: ObjectId, i: nat)
    requires UniqueIds(documents)
    requires i < |documents| && documents[i].id == id && TenantVisible(options, documents[i])
    ensures Where(documents, NormalizeFilter(options, IdEquals(id))) == [documents[i]]
  {
    var extra: FilterDefinition<T> := if options.multiTenantHandling == TenantField then TenantEquals(options.tenantId) else Empty;
    WhereSameMatches(documents, NormalizeFilter(options, IdEquals(id)), And(IdEquals(id), extra));
    UniqueIdMatchesOnce(documents, id, extra, i);
  }

  /**
    A first page without a page size, or with one at least the number of
    visible matches, holds every visible match, in collection order.
   */
  lemma FirstPageHoldsAllMatches<T(!new)>(options: MongoDbOptions, documents: seq<Document<T>>, query: PagedQuery<T>)
    requires query.offset == 0
    requires query.pageSize == 0 || query.pageSize >= |Where(documents, PageFilter(options, query))|
    ensures Page(options, documents, query).items == Where(documents, PageFilter(options, query))
  {
    FirstPageCoversAll(Where(documents, PageFilter(options, query)), query.pageSize);
  }

  /**
    Tenant isolation in the tenant-field mode: a document of another tenant
    changes neither the count nor any page, wherever it sits.
   */
  lemma OtherTenantInvisible<T(!new)>(options: MongoDbOptions, before: seq<Document<T>>, d: Document<T>, after: seq<Document<T>>, query: PagedQuery<T>)
    requires options.multiTenantHandling == TenantField && d.tenant != options.tenantId
    ensures CountDocuments(before + [d] + after, NormalizeFilter(options, Empty))
         == CountDocuments(before + after, NormalizeFilter(options, Empty))
    ensures Page(options, before + [d] + after, query) == Page(options, before + after, query)
  {
    WhereIgnoresNonMatching(before, d, after, NormalizeFilter(options, Empty));
    WhereIgnoresNonMatching(before, d, after, PageFilter(options, query));
  }

  /** Tenant isolation of deletion: the documents of any other tenant are all still there, in order. */
  lemma DeleteSparesOtherTenants<T(!new)>(options: MongoDbOptions, documents: seq<Document<T>>, id: ObjectId, other: Option<string>)
    requires options.multiTenantHandling == TenantField && other != options.tenantId
    ensures Where(DeleteOne(documents, NormalizeFilter(options, IdEquals(id))), TenantEquals(other))
         == Where(documents, TenantEquals(other))
  {
    DeleteOneKeepsOthers(documents, NormalizeFilter(options, IdEquals(id)), TenantEquals(other));
  }

  /**
    Update is not tenant-scoped: the first document with the replacement's
    id is overwritten even when it belongs to another tenant, so that a
    lookup by that id through the store could never have returned it.
   */
  lemma UpdateCrossesTenants<T(!new)>(options: MongoDbOptions, documents: seq<Document<T>>, replacement: Document<T>, i: nat)
    requires IndexOf(documents, IdEquals(replacement.id)) == Some(i)
    requires !TenantVisible(options, documents[i])
    ensures FindFirst(documents, NormalizeFilter(options, IdEquals(replacement.id))) != Some(documents[i])
    ensures ReplaceOne(documents, replacement)[i] == replacement
    ensures documents[i] != replacement ==> ReplaceOne(documents, replacement) != documents
  {
    if documents[i] != replacement {
      assert ReplaceOne(documents, replacement)[i] != documents[i];
    }
  }

  // ---- Clients: what callers can conclude from the contracts alone ----

  /** Two documents created in turn in an empty collection come back, in that order, on a first page of ten. */
  method PageOfTwoScenario<T(==,!new)>(options: MongoDbOptions, first: Document<T>, second: Document<T>)
    requires options.multiTenantHandling == TenantField
  {
    var store := new MongoDbStoreBase<T>(options, "webhooks_subscription", true, []);
    var id1 := store.Create(first, false);
    var id2 := store.Create(second, false);
    var d1, d2 := Inserted(options, true, first, id1.value), Inserted(options, true, second, id2.value);
    assert store.documents == [d1, d2];
    var query: PagedQuery<T> := PagedQuery(None, 0, 10);
    var page := store.GetPage(query, false);
    FirstPageHoldsAllMatches(options, store.documents, query);
    var filter := PageFilter(options, query);
    assert Matches(filter, d1) && Matches(filter, d2);
    assert [d1, d2][1..] == [d2] && [d2][1..] == [];
    assert Where([d2], filter) == [d2];
    assert Where([d1, d2], filter) == [d1, d2];
    assert page.value.totalCount == 2;
    assert page.value.items == [d1, d2];
    assert page.value.items[0].id == id1.value && page.value.items[1].id == id2.value;
  }

  /** After `Dispose`, and after disposing again, every operation is refused and nothing changes. */
  method DisposeScenario<T(==,!new)>(options: MongoDbOptions, existing: Document<T>, d: Document<T>)
    requires d.tenant.None?
  {
    var store := new MongoDbStoreBase<T>(options, "webhooks_subscription", true, [existing]);
    var id := store.Create(d, false);
    var before := store.documents;
    store.Dispose();
    store.Dispose();
    var c := store.Create(d, false);
    var u := store.Update(d, false);
    var f := store.FindById(id.value, false);
    var x := store.Delete(d, false);
    var n := store.CountAll(false);
    var p := store.GetPage(PagedQuery(None, 0, 10), false);
    assert c == Err(ObjectDisposed) && u == Err(ObjectDisposed) && f == Err(ObjectDisposed);
    assert x == Err(ObjectDisposed) && n == Err(ObjectDisposed) && p.Err? && p.error == ObjectDisposed;
    assert store.documents == before && before[0] == existing;
  }
}
