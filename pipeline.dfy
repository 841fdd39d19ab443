/** How the three stages connect: the ingress publishes an item on the
    Kinesis stream, the persister writes it to the DynamoDB table, and the
    table's stream (NEW_AND_OLD_IMAGES) hands the observer the item's new
    image together with the image it replaced. */
module Pipeline {
  import opened Basics
  import opened Strconv
  import opened Wire
  import Upstream
  import Midstream
  import Downstream

  /** `dynamodbattribute.MarshalMap(item)`: each string field becomes a
      String attribute, the int64 field a Number holding its decimal text.
      The observer reads back from it exactly the item marshalled into it. */
  function ImageOf(item: Item): (image: Downstream.Image)
    ensures Downstream.Extractable(image)
    ensures Downstream.ExtractItem(image) == Ok(item)
  {
    map["id" := Downstream.S(item.id), "message" := Downstream.S(item.message),
        "timestamp" := Downstream.N(FormatInt(item.timestamp))]
  }

  /** The change record the table's stream emits when the persister writes
      `item` into a table holding `store`: the new image, and the image of
      the item with the same id that it replaces, if any. A put that leaves
      the stored item as it was changes no data, and the stream emits no
      record for it (`None`). */
  function ChangeOf(store: map<string, Item>, item: Item): Option<Downstream.ChangeRecord> {
    if item.id in store && store[item.id] == item then None
    else Some(Downstream.ChangeRecord(Some(ImageOf(item)),
      if item.id in store then Some(ImageOf(store[item.id])) else None))
  }

  /** What the ingress publishes for an accepted body is a stream record
      keyed by the item's id that the persister decodes back to that item. */
  lemma PublishedDecodes(body: Payload)
    requires Upstream.UnmarshalItem(body).Ok?
    ensures var item := Upstream.UnmarshalItem(body).value;
      var record := Upstream.Publication(item);
      && record.partitionKey == item.id
      && Decode(record.data) == Ok(item)
      && Midstream.Delivered(Midstream.KinesisEventRecord(record.data), None)
  {
  }

  /** A batch of publications whose puts all succeed goes through whole,
      and the persister writes exactly the published items, in order (so
      its handler leaves `PutAll(store, items)` in the table). */
  lemma PersistsPublications(items: seq<Item>)
    ensures var records := seq(|items|, (j: int) requires 0 <= j < |items| =>
                               Midstream.KinesisEventRecord(Upstream.Publication(items[j]).data));
      var ok := seq(|items|, (j: int) requires 0 <= j < |items| => None);
      && Midstream.Committed(records, ok) == |items|
      && Midstream.ItemsOf(records, |items|) == items
  {
    var records := seq(|items|, (j: int) requires 0 <= j < |items| =>
                       Midstream.KinesisEventRecord(Upstream.Publication(items[j]).data));
    var ok: seq<Option<ServiceError>> := seq(|items|, (j: int) requires 0 <= j < |items| => None);
    assert forall j :: 0 <= j < |items| ==> Decode(records[j].data) == Ok(items[j]);
    assert forall j :: 0 <= j < |records| ==> Midstream.Delivered(records[j], ok[j]);
    Midstream.CommittedAt(records, ok, |records|);
  }

  /** The observer's view of a write of a valid item. A put that changes
      nothing reaches the observer not at all. Any other put makes it log
      the new item, then, when the write replaced an item (whose strings are
      non-empty), the replaced one, and send one latency metric computed
      from the new item only; a failed emission is logged and does not stop
      the batch. */
  lemma ObservesWrite(store: map<string, Item>, item: Item, now: Int64, fault: Option<ServiceError>)
    requires Upstream.Valid(item)
    requires item.id in store ==> store[item.id].id != "" && store[item.id].message != ""
    ensures ChangeOf(store, item).None? <==> item.id in store && store[item.id] == item
    ensures ChangeOf(store, item).Some? ==>
      var e := Downstream.ObserveRecord(ChangeOf(store, item).value, now, fault);
      && e.lines == [Downstream.New(item)]
                    + (if fault.Some? then [Downstream.EmitFailed(fault.value)] else [])
                    + (if item.id in store then [Downstream.Old(store[item.id])] else [])
      && e.sent == [Downstream.LatencyInput(now, item)]
      && !e.stopped
  {
    if item.id in store && store[item.id] != item {
      Downstream.BothImages(ImageOf(item), ImageOf(store[item.id]), now, fault);
    }
  }

  /** The worked example: {"id":"a","message":"hi","timestamp":1000} is
      accepted, stored as is, and observed at 1050 with a latency of 50. */
  lemma Example()
    ensures var item := Item("a", "hi", 1000);
      && Upstream.UnmarshalItem(Parsed(Encode(item))) == Ok(item)
      && Downstream.ExtractItem(ImageOf(item)) == Ok(item)
      && Downstream.LatencyInput(1050, item)
         == Downstream.PutMetricDataInput("ServerlessDataProcessingPipeline/Latencies",
                                          [Downstream.MetricDatum("Latency", "Count", 50)])
  {
    var item := Item("a", "hi", 1000);
    Upstream.AcceptsExactlyValid(item);
  }
}
