/**
  `WebhookFields`: the fields of a webhook a notification may carry, as a
  flags enumeration over a 32-bit integer.
 */
module WebhookFieldFlags {

  type WebhookFields = bv32

  const None: WebhookFields := 0
  const Name: WebhookFields := 1
  const EventId: WebhookFields := 2
  const EventName: WebhookFields := 4
  const TimeStamp: WebhookFields := 8
  const All: WebhookFields := Name | EventId | EventName | TimeStamp

  /** One of the four named fields. */
  predicate IsField(f: WebhookFields) {
    f == Name || f == EventId || f == EventName || f == TimeStamp
  }

  /** `Enum.HasFlag`: every bit of `flag` is set in `value`. */
  predicate HasFlag(value: WebhookFields, flag: WebhookFields) {
    value & flag == flag
  }

  /** The OR of a sequence of fields (`None` for none). */
  function Combine(fields: seq<WebhookFields>): WebhookFields
    decreases |fields|
  {
    if fields == [] then None else fields[0] | Combine(fields[1..])
  }

  /** `None` is the empty set of flags: contained in everything, neutral for OR. */
  lemma NoneIsEmpty(value: WebhookFields)
    ensures None == 0
    ensures HasFlag(value, None)
    ensures value | None == value
    ensures HasFlag(None, value) <==> value == None
  {
  }

  /** The four fields are the single bits 1, 2, 4 and 8, pairwise disjoint. */
  lemma FieldsAreDisjointBits(f: WebhookFields, g: WebhookFields)
    requires IsField(f) && IsField(g)
    ensures f != 0 && f & (f - 1) == 0
    ensures f != g ==> f & g == 0
  {
  }

  /** `All` is the OR of the four fields, 15, and contains each of them. */
  lemma AllIsUnionOfFields(f: WebhookFields)
    requires IsField(f)
    ensures All == 15
    ensures All == Combine([Name, EventId, EventName, TimeStamp])
    ensures HasFlag(All, f)
  {
    var all := [Name, EventId, EventName, TimeStamp];
    assert all[1..] == [EventId, EventName, TimeStamp];
    assert all[1..][1..] == [EventName, TimeStamp];
    assert all[1..][1..][1..] == [TimeStamp];
    assert Combine([TimeStamp]) == TimeStamp;
    assert Combine([EventName, TimeStamp]) == EventName | TimeStamp;
    assert Combine([EventId, EventName, TimeStamp]) == EventId | EventName | TimeStamp;
    assert Combine(all) == Name | EventId | EventName | TimeStamp;
  }

  /** Any combination of fields lies within `All`, and adding `All` to it yields `All`. */
  lemma {:induction false} CombinationWithinAll(fields: seq<WebhookFields>)
    requires forall k :: 0 <= k < |fields| ==> IsField(fields[k])
    ensures Combine(fields) & All == Combine(fields)
    ensures HasFlag(All, Combine(fields))
    ensures Combine(fields) | All == All
    decreases |fields|
  {
    if fields != [] {
      CombinationWithinAll(fields[1..]);
    }
  }

  /** A combination of fields has a field's flag exactly when that field is one of those combined. */
  lemma {:induction false} CombinationHasFlagIff(fields: seq<WebhookFields>, f: WebhookFields)
    requires forall k :: 0 <= k < |fields| ==> IsField(fields[k])
    requires IsField(f)
    ensures HasFlag(Combine(fields), f) <==> f in fields
    decreases |fields|
  {
    if fields != [] {
      CombinationHasFlagIff(fields[1..], f);
      assert f in fields <==> f == fields[0] || f in fields[1..];
    }
  }
}
