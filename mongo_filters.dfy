/**
  The documents of a store, the filters `MongoDbStoreBase` builds for the
  driver, and what the driver's find, count, skip/limit, delete-one and
  replace-one do with them, over the collection as a sequence in natural
  (insertion) order.
 */
module MongoDbFilters {
  import opened Wrappers
  import opened MongoDbNames

  /** A document `_id` (an `ObjectId`, here a number). */
  type ObjectId = nat

  /**
    A stored document: its id, the value of its tenant property (`None`
    when null or absent) and the rest of it, opaque to the store.
   */
  datatype Document<T> = Document(id: ObjectId, tenant: Option<string>, content: T)

  /** The filter definitions the store builds. */
  datatype FilterDefinition<!T> =
    | Empty                                   // Filter.Empty
    | IdEquals(id: ObjectId)                  // Filter.Eq(doc => doc.Id, id)
    | TenantEquals(tenant: Option<string>)    // Filter.Eq(TenantField, TenantId)
    | Expression(condition: Document<T> -> bool)  // ExpressionFilterDefinition
    | And(left: FilterDefinition<T>, right: FilterDefinition<T>)

  predicate Matches<T>(filter: FilterDefinition<T>, d: Document<T>) {
    match filter
    case Empty => true
    case IdEquals(id) => d.id == id
    case TenantEquals(tenant) => d.tenant == tenant
    case Expression(p) => p(d)
    case And(l, r) => Matches(l, d) && Matches(r, d)
  }

  /** A document a store with these options may see: in the tenant-field mode, only its own tenant's. */
  predicate TenantVisible<T>(options: MongoDbOptions, d: Document<T>) {
    options.multiTenantHandling == TenantField ==> d.tenant == options.tenantId
  }

  /**
    `NormalizeFilter`: the tenant condition is conjoined in the tenant-field
    mode only, so a normalized filter matches exactly the documents the
    filter matches that the store may see.
   */
  function NormalizeFilter<T(!new)>(options: MongoDbOptions, filter: FilterDefinition<T>): (r: FilterDefinition<T>)
    ensures forall d: Document<T> :: Matches(r, d) <==> Matches(filter, d) && TenantVisible(options, d)
    ensures options.multiTenantHandling != TenantField ==> r == filter
  {
    if options.multiTenantHandling == TenantField then
      And(filter, TenantEquals(options.tenantId))
    else
      filter
  }

  /** `SetTenantId`: a document type with the tenant property gets the store's tenant in it. */
  function SetTenantId<T>(options: MongoDbOptions, hasTenantProperty: bool, d: Document<T>): (r: Document<T>)
    ensures r.id == d.id && r.content == d.content
    ensures r.tenant == (if hasTenantProperty then options.tenantId else d.tenant)
  {
    if hasTenantProperty then d.(tenant := options.tenantId) else d
  }

  /** The position of the first document the filter matches. */
  function IndexOf<T>(s: seq<Document<T>>, filter: FilterDefinition<T>): (r: Option<nat>)
    ensures r.Some? ==> r.value < |s| && Matches(filter, s[r.value])
    ensures r.Some? ==> forall j :: 0 <= j < r.value ==> !Matches(filter, s[j])
    ensures r.None? <==> forall j :: 0 <= j < |s| ==> !Matches(filter, s[j])
    decreases |s|
  {
    if s == [] then None
    else if Matches(filter, s[0]) then Some(0)
    else match IndexOf(s[1..], filter)
      case None => None
      case Some(i) => Some(i + 1)
  }

  /** A find with limit 1: the first matching document, if any. */
  function FindFirst<T>(s: seq<Document<T>>, filter: FilterDefinition<T>): (r: Option<Document<T>>)
    ensures r.Some? ==> r.value in s && Matches(filter, r.value)
    ensures r.None? <==> forall j :: 0 <= j < |s| ==> !Matches(filter, s[j])
  {
    match IndexOf(s, filter)
    case None => None
    case Some(i) => Some(s[i])
  }

  /**
    A find without skip or limit: the matching documents, in collection
    order. That they are documents of the collection, and all of its
    matches, is stated by `WhereFindsOnlyMembers` and `WhereFindsEveryMatch`.
   */
  function Where<T>(s: seq<Document<T>>, filter: FilterDefinition<T>): (r: seq<Document<T>>)
    ensures |r| <= |s|
    ensures forall k :: 0 <= k < |r| ==> Matches(filter, r[k])
    decreases |s|
  {
    if s == [] then []
    else (if Matches(filter, s[0]) then [s[0]] else []) + Where(s[1..], filter)
  }

  /** `CountDocuments`: how many documents the filter matches, as many as a find without a limit returns. */
  function CountDocuments<T>(s: seq<Document<T>>, filter: FilterDefinition<T>): (n: nat)
    ensures n == |Where(s, filter)|
    ensures n <= |s|
    decreases |s|
  {
    if s == [] then 0
    else (if Matches(filter, s[0]) then 1 else 0) + CountDocuments(s[1..], filter)
  }

  /**
    Skip `skip` documents, then take at most `limit` of them; a limit of 0
    is no limit, as for the driver's `FindOptions.Limit`.
   */
  function SkipLimit<T>(s: seq<T>, skip: nat, limit: nat): (r: seq<T>)
    ensures skip <= |s| ==> |r| <= |s| - skip
    ensures skip >= |s| ==> r == []
    ensures limit > 0 ==> |r| <= limit
    ensures |r| == if skip >= |s| then 0 else if limit == 0 || skip + limit >= |s| then |s| - skip else limit
    ensures limit == 0 || skip + limit >= |s| ==> r == s[if skip <= |s| then skip else |s|..]
    ensures forall k :: 0 <= k < |r| ==> skip + k < |s| && r[k] == s[skip + k]
  {
    var rest := if skip <= |s| then s[skip..] else [];
    if limit == 0 || limit >= |rest| then rest else rest[..limit]
  }

  /** `DeleteOne`: the first matching document is removed. */
  function DeleteOne<T>(s: seq<Document<T>>, filter: FilterDefinition<T>): (r: seq<Document<T>>)
    ensures IndexOf(s, filter).None? ==> r == s
    ensures IndexOf(s, filter).Some? ==> |r| == |s| - 1
  {
    match IndexOf(s, filter)
    case None => s
    case Some(i) => s[..i] + s[i + 1..]
  }

  /** `ReplaceOne` by id: the first document with the replacement's id is replaced by it. */
  function ReplaceOne<T>(s: seq<Document<T>>, replacement: Document<T>): (r: seq<Document<T>>)
    ensures |r| == |s|
    ensures forall k :: 0 <= k < |s| && s[k].id != replacement.id ==> r[k] == s[k]
    ensures IndexOf(s, IdEquals(replacement.id)).None? ==> r == s
    ensures IndexOf(s, IdEquals(replacement.id)).Some? ==>
      var i := IndexOf(s, IdEquals(replacement.id)).value;
      r[i] == replacement && forall k :: 0 <= k < |s| && k != i ==> r[k] == s[k]
  {
    match IndexOf(s, IdEquals(replacement.id))
    case None => s
    case Some(i) =>
      s[i := replacement]
  }

  /** No two documents share an `_id`, as MongoDB's unique `_id` index guarantees. */
  ghost predicate UniqueIds<T>(s: seq<Document<T>>) {
    forall i, j :: 0 <= i < j < |s| ==> s[i].id != s[j].id
  }

  /** An id greater than every id in the collection. */
  function NextId<T>(s: seq<Document<T>>): (r: ObjectId)
    ensures forall d :: d in s ==> d.id < r
    decreases |s|
  {
    if s == [] then 1
    else
      var rest := NextId(s[1..]);
      if s[0].id < rest then rest else s[0].id + 1
  }

  // ---- Lemmas ----

  /** Filtering distributes over concatenation. */
  lemma {:induction false} WhereAppend<T>(a: seq<Document<T>>, b: seq<Document<T>>, filter: FilterDefinition<T>)
    ensures Where(a + b, filter) == Where(a, filter) + Where(b, filter)
    decreases |a|
  {
    if a == [] {
      assert a + b == b;
    } else {
      var tail := a[1..] + b;
      assert (a + b)[0] == a[0] && (a + b)[1..] == tail;
      WhereAppend(a[1..], b, filter);
      if Matches(filter, a[0]) {
        assert Where(a + b, filter) == [a[0]] + Where(tail, filter);
        assert Where(a, filter) == [a[0]] + Where(a[1..], filter);
      } else {
        assert Where(a + b, filter) == Where(tail, filter);
        assert Where(a, filter) == Where(a[1..], filter);
      }
    }
  }

  /** Only documents of the collection are found. */
  lemma {:induction false} WhereFindsOnlyMembers<T>(s: seq<Document<T>>, filter: FilterDefinition<T>)
    ensures forall k :: 0 <= k < |Where(s, filter)| ==> Where(s, filter)[k] in s
    decreases |s|
  {
    if s != [] {
      WhereFindsOnlyMembers(s[1..], filter);
      var head := if Matches(filter, s[0]) then [s[0]] else [];
      var r := Where(s, filter);
      assert r == head + Where(s[1..], filter);
      forall k | 0 <= k < |r| ensures r[k] in s {
        if k >= |head| {
          assert r[k] == Where(s[1..], filter)[k - |head|];
          assert Where(s[1..], filter)[k - |head|] in s[1..];
        }
      }
    }
  }

  /** Every document the filter matches is found. */
  lemma {:induction false} WhereFindsEveryMatch<T>(s: seq<Document<T>>, filter: FilterDefinition<T>)
    ensures forall j :: 0 <= j < |s| && Matches(filter, s[j]) ==> s[j] in Where(s, filter)
    decreases |s|
  {
    if s != [] {
      WhereFindsEveryMatch(s[1..], filter);
      forall j | 0 < j < |s| && Matches(filter, s[j]) ensures s[j] in Where(s, filter) {
        assert s[j] == s[1..][j - 1];
      }
    }
  }

  /** Nothing is found where nothing matches. */
  lemma {:induction false} WhereNoneMatch<T>(s: seq<Document<T>>, filter: FilterDefinition<T>)
    requires forall j :: 0 <= j < |s| ==> !Matches(filter, s[j])
    ensures Where(s, filter) == []
    decreases |s|
  {
    if s != [] {
      assert forall j :: 0 <= j < |s[1..]| ==> s[1..][j] == s[j + 1];
      WhereNoneMatch(s[1..], filter);
    }
  }

  /** A document the filter does not match can be added or removed anywhere without changing what matches. */
  lemma WhereIgnoresNonMatching<T>(a: seq<Document<T>>, d: Document<T>, b: seq<Document<T>>, filter: FilterDefinition<T>)
    requires !Matches(filter, d)
    ensures Where(a + [d] + b, filter) == Where(a + b, filter)
  {
    assert [d][1..] == [];
    assert Where([d], filter) == [];
    WhereAppend(a, [d], filter);
    assert Where(a + [d], filter) == Where(a, filter);
    WhereAppend(a + [d], b, filter);
    WhereAppend(a, b, filter);
  }

  /** With unique ids, the document an id filter finds is the only one it matches. */
  lemma {:induction false} UniqueIdMatchesOnce<T>(s: seq<Document<T>>, id: ObjectId, extra: FilterDefinition<T>, i: nat)
    requires UniqueIds(s)
    requires i < |s| && Matches(And(IdEquals(id), extra), s[i])
    ensures Where(s, And(IdEquals(id), extra)) == [s[i]]
    decreases |s|
  {
    var f := And(IdEquals(id), extra);
    if i == 0 {
      forall j | 0 <= j < |s[1..]| ensures !Matches(f, s[1..][j]) {
        assert s[1..][j] == s[j + 1];
      }
      WhereNoneMatch(s[1..], f);
    } else {
      assert !Matches(f, s[0]) by { assert s[0].id != s[i].id; }
      assert UniqueIds(s[1..]) by {
        forall p, q | 0 <= p < q < |s[1..]| ensures s[1..][p].id != s[1..][q].id {
          assert s[1..][p] == s[p + 1] && s[1..][q] == s[q + 1];
        }
      }
      UniqueIdMatchesOnce(s[1..], id, extra, i - 1);
    }
  }

  /** Two filters that match the same documents find the same documents. */
  lemma {:induction false} WhereSameMatches<T>(s: seq<Document<T>>, f: FilterDefinition<T>, g: FilterDefinition<T>)
    requires forall j :: 0 <= j < |s| ==> (Matches(f, s[j]) <==> Matches(g, s[j]))
    ensures Where(s, f) == Where(s, g)
    decreases |s|
  {
    if s != [] {
      assert forall j :: 0 <= j < |s[1..]| ==> s[1..][j] == s[j + 1];
      WhereSameMatches(s[1..], f, g);
    }
  }

  /** Removing any element keeps ids unique. */
  lemma UniqueIdsWithout<T>(s: seq<Document<T>>, i: nat)
    requires UniqueIds(s) && i < |s|
    ensures UniqueIds(s[..i] + s[i + 1..])
  {
    var r := s[..i] + s[i + 1..];
    forall p, q | 0 <= p < q < |r| ensures r[p].id != r[q].id {
      var p', q' := if p < i then p else p + 1, if q < i then q else q + 1;
      assert r[p] == s[p'] && r[q] == s[q'];
    }
  }

  /**
    Deleting the first match leaves every other document where it was: the
    collection minus one document, and the same sequence of documents
    the filter does not match.
   */
  lemma DeleteOneKeepsOthers<T>(s: seq<Document<T>>, filter: FilterDefinition<T>, other: FilterDefinition<T>)
    requires forall d :: Matches(other, d) ==> !Matches(filter, d)
    ensures Where(DeleteOne(s, filter), other) == Where(s, other)
  {
    match IndexOf(s, filter)
    case None =>
    case Some(i) =>
      assert s == s[..i] + [s[i]] + s[i + 1..];
      WhereIgnoresNonMatching(s[..i], s[i], s[i + 1..], other);
  }

  /**
    With unique ids, deleting the first match of a filter that pins one id
    leaves no match: the only document that could match is gone.
   */
  lemma DeleteOneLeavesNoMatch<T>(s: seq<Document<T>>, filter: FilterDefinition<T>, id: ObjectId)
    requires UniqueIds(s)
    requires forall d :: Matches(filter, d) ==> d.id == id
    ensures forall k :: 0 <= k < |DeleteOne(s, filter)| ==> !Matches(filter, DeleteOne(s, filter)[k])
  {
    match IndexOf(s, filter)
    case None =>
    case Some(i) =>
      var r := DeleteOne(s, filter);
      assert r == s[..i] + s[i + 1..];
      forall k | 0 <= k < |r| ensures !Matches(filter, r[k]) {
        if k >= i {
          assert r[k] == s[k + 1];
          assert s[i].id != s[k + 1].id;
        }
      }
  }

  /** Consecutive pages concatenate to the page that starts at the first of them and has no limit. */
  lemma ConsecutivePages<T>(s: seq<T>, skip: nat, limit: nat)
    requires limit > 0
    ensures SkipLimit(s, skip, limit) + SkipLimit(s, skip + limit, 0) == SkipLimit(s, skip, 0)
  {
    if skip + limit < |s| {
      assert s[skip..] == s[skip..][..limit] + s[skip + limit..];
    }
  }

  /** A page is the slice from the skip (capped at the end) up to the limit, or to the end. */
  lemma SkipLimitIsSlice<T>(s: seq<T>, skip: nat, limit: nat)
    ensures var lo := if skip <= |s| then skip else |s|;
      var hi := if limit == 0 || lo + limit >= |s| then |s| else lo + limit;
      SkipLimit(s, skip, limit) == s[lo..hi]
  {
  }

  /** Every item of a page of matches is a document of the collection that the filter matches. */
  lemma PageOfMatches<T>(s: seq<Document<T>>, filter: FilterDefinition<T>, skip: nat, limit: nat)
    ensures forall k :: 0 <= k < |SkipLimit(Where(s, filter), skip, limit)| ==>
      SkipLimit(Where(s, filter), skip, limit)[k] in s && Matches(filter, SkipLimit(Where(s, filter), skip, limit)[k])
  {
    var matches := Where(s, filter);
    var page := SkipLimit(matches, skip, limit);
    WhereFindsOnlyMembers(s, filter);
    forall k | 0 <= k < |page| ensures page[k] in s && Matches(filter, page[k]) {
      assert page[k] == matches[skip + k];
    }
  }

  /** With no skip and a limit covering the whole sequence, a page is all of it. */
  lemma FirstPageCoversAll<T>(s: seq<T>, limit: nat)
    requires limit == 0 || limit >= |s|
    ensures SkipLimit(s, 0, limit) == s
  {
  }
}
