/**
  `MongoDbWebhookSubscriptionFactory`: the mapping of a subscription
  request (`WebhookSubscriptionInfo`) to the document that is stored.
  Null references are `None`; metadata values (`object`) are of type `V`.
 */
module WebhookSubscriptionFactory {
  import W = Wrappers

  datatype WebhookSubscriptionStatus = None | Active | Suspended

  /** A `DateTimeOffset`, by its UTC ticks. */
  datatype DateTimeOffset = DateTimeOffset(utcTicks: int)

  /** `DateTimeOffset.MinValue`. */
  const MinValue: DateTimeOffset := DateTimeOffset(0)

  /** A destination `Uri`, by the text it was made from. */
  datatype Uri = Uri(text: string)

  /** `Uri.ToString()`. */
  function UriToString(u: Uri): string {
    u.text
  }

  /** A filter of the request (`IWebhookFilter`). */
  datatype WebhookFilter = WebhookFilter(expression: string, format: string)

  /** A filter of the stored document (`WebhookFilterField`). */
  datatype WebhookFilterField = WebhookFilterField(expression: string, format: string)

  datatype WebhookSubscriptionInfo<V> = WebhookSubscriptionInfo(
    name: W.Option<string>,
    eventTypes: W.Option<seq<string>>,
    destinationUrl: Uri,
    retryCount: int,
    secret: W.Option<string>,
    active: bool,
    headers: W.Option<map<string, string>>,
    filters: W.Option<seq<WebhookFilter>>,
    metadata: W.Option<map<string, V>>)

  datatype WebhookSubscriptionDocument<V> = WebhookSubscriptionDocument(
    name: W.Option<string>,
    eventTypes: W.Option<seq<string>>,
    destinationUrl: string,
    retryCount: int,
    secret: W.Option<string>,
    status: WebhookSubscriptionStatus,
    lastStatusTime: DateTimeOffset,
    headers: W.Option<map<string, string>>,
    filters: W.Option<seq<WebhookFilterField>>,
    metadata: map<string, V>)

  /** `MapFilter`: the stored field keeps the expression and the format, so the filter can be read back. */
  function MapFilter(filter: WebhookFilter): (field: WebhookFilterField)
    ensures field.expression == filter.expression && field.format == filter.format
    ensures UnmapFilter(field) == filter
  {
    WebhookFilterField(filter.expression, filter.format)
  }

  /** `Select(MapFilter).ToList()`: the filters mapped one by one, in order. */
  function MapFilters(filters: seq<WebhookFilter>): (r: seq<WebhookFilterField>)
    ensures |r| == |filters|
    ensures forall k :: 0 <= k < |r| ==>
      r[k].expression == filters[k].expression && r[k].format == filters[k].format
  {
    seq(|filters|, k requires 0 <= k < |filters| => MapFilter(filters[k]))
  }

  /** `Create`, with the clock's current UTC time passed in as `utcNow`. */
  function Create<V>(info: WebhookSubscriptionInfo<V>, utcNow: DateTimeOffset): (doc: WebhookSubscriptionDocument<V>)
    ensures doc.status == Active <==> info.active
    ensures doc.status == None <==> !info.active
    ensures doc.status != Suspended
    ensures doc.lastStatusTime == (if info.active then utcNow else MinValue)
    ensures doc.name == info.name && doc.retryCount == info.retryCount && doc.secret == info.secret
    ensures doc.destinationUrl == UriToString(info.destinationUrl)
    ensures doc.eventTypes == info.eventTypes
    ensures doc.headers == info.headers
    ensures doc.filters.Some? <==> info.filters.Some?
    ensures info.filters.Some? ==> doc.filters.value == MapFilters(info.filters.value)
    ensures info.metadata.Some? ==> doc.metadata == info.metadata.value
    ensures info.metadata.None? ==> doc.metadata == map[]
  {
    WebhookSubscriptionDocument(
      info.name,
      info.eventTypes,
      UriToString(info.destinationUrl),
      info.retryCount,
      info.secret,
      if info.active then Active else None,
      if info.active then utcNow else MinValue,
      info.headers,
      match info.filters case None => W.None case Some(fs) => W.Some(MapFilters(fs)),
      info.metadata.GetOr(map[]))
  }

  // ---- The way back: the request a stored document records ----

  function UnmapFilter(field: WebhookFilterField): WebhookFilter {
    WebhookFilter(field.expression, field.format)
  }

  function UnmapFilters(fields: seq<WebhookFilterField>): (r: seq<WebhookFilter>)
    ensures |r| == |fields|
  {
    seq(|fields|, k requires 0 <= k < |fields| => UnmapFilter(fields[k]))
  }

  /** The request a document records: what a client reading the subscription back sees of it. */
  function InfoOf<V>(doc: WebhookSubscriptionDocument<V>): WebhookSubscriptionInfo<V> {
    WebhookSubscriptionInfo(
      doc.name,
      doc.eventTypes,
      Uri(doc.destinationUrl),
      doc.retryCount,
      doc.secret,
      doc.status == Active,
      doc.headers,
      match doc.filters case None => W.None case Some(fs) => W.Some(UnmapFilters(fs)),
      W.Some(doc.metadata))
  }

  /** Mapping filters and mapping them back gives the same filters. */
  lemma FiltersRoundTrip(filters: seq<WebhookFilter>)
    ensures UnmapFilters(MapFilters(filters)) == filters
  {
    var back := UnmapFilters(MapFilters(filters));
    forall k | 0 <= k < |filters| ensures back[k] == filters[k] {
      assert MapFilters(filters)[k] == MapFilter(filters[k]);
    }
  }

  /**
    Nothing of a request is lost but the difference between null and empty
    metadata: reading a created document back yields the request, with
    null metadata read as empty.
   */
  lemma CreateRoundTrip<V>(info: WebhookSubscriptionInfo<V>, utcNow: DateTimeOffset)
    ensures InfoOf(Create(info, utcNow)) == info.(metadata := W.Some(info.metadata.GetOr(map[])))
  {
    if info.filters.Some? {
      FiltersRoundTrip(info.filters.value);
    }
  }

  /** Two requests with metadata that create the same document at the same time are the same request. */
  lemma CreateInjective<V>(a: WebhookSubscriptionInfo<V>, b: WebhookSubscriptionInfo<V>, utcNow: DateTimeOffset)
    requires a.metadata.Some? && b.metadata.Some?
    requires Create(a, utcNow) == Create(b, utcNow)
    ensures a == b
  {
    CreateRoundTrip(a, utcNow);
    CreateRoundTrip(b, utcNow);
  }

  /** An inactive subscription's document does not depend on the clock. */
  lemma InactiveIgnoresClock<V>(info: WebhookSubscriptionInfo<V>, t1: DateTimeOffset, t2: DateTimeOffset)
    requires !info.active
    ensures Create(info, t1) == Create(info, t2)
    ensures Create(info, t1).lastStatusTime == MinValue
  {
  }

  /**
    Whatever makes a filter the wildcard is a property of its expression and
    format, so a request with the single wildcard filter yields a document
    whose filters are that one wildcard filter.
   */
  lemma SingleFilterKept<V>(info: WebhookSubscriptionInfo<V>, utcNow: DateTimeOffset,
                            isWildcard: (string, string) -> bool)
    requires info.filters.Some? && |info.filters.value| == 1
    requires isWildcard(info.filters.value[0].expression, info.filters.value[0].format)
    ensures var fs := Create(info, utcNow).filters;
      fs.Some? && |fs.value| == 1 && isWildcard(fs.value[0].expression, fs.value[0].format)
  {
  }
}
