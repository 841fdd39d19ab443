/** The stream persister: triggered with a batch of Kinesis records, it
    decodes each record's data into an Item and writes it whole to the
    DynamoDB table under its id, stopping at the first failure. */
module Midstream {
  import opened Basics
  import opened Wire

  /** One record of the `KinesisEvent`; the handler reads only its data. */
  datatype KinesisEventRecord = KinesisEventRecord(data: Payload)

  /** The `error` the handler returns. */
  datatype HandlerError = DecodeFailed(decodeError: DecodeError) | PutFailed(serviceError: ServiceError)

  /** The line `Processing item ID %s, message %s.` */
  datatype LogLine = Processing(id: string, message: string)

  /** The DynamoDB table named by TABLE_NAME, keyed by `id`. */
  class Table {
    var items: map<string, Item>
    /** Every PutItem call the table received, accepted or not. */
    var requests: seq<Item>

    constructor (items: map<string, Item>)
      ensures this.items == items && requests == []
    {
      this.items := items;
      requests := [];
    }

    /** `svc.PutItem` of the whole item: an unconditional replacement of
        whatever the key held. `fault` is the service's answer, chosen by the
        environment; on an error the table is unchanged. */
    method PutItem(item: Item, fault: Option<ServiceError>) returns (err: Option<ServiceError>)
      modifies this
      ensures err == fault
      ensures requests == old(requests) + [item]
      ensures items == if fault.None? then old(items)[item.id := item] else old(items)
    {
      requests := requests + [item];
      if fault.None? {
        items := items[item.id := item];
      }
      err := fault;
    }
  }

  /** The table after a sequence of successful puts, in order: it holds
      exactly the keys it held before and the ids written. */
  function PutAll(store: map<string, Item>, items: seq<Item>): (r: map<string, Item>)
    ensures r.Keys == store.Keys + set j | 0 <= j < |items| :: items[j].id
    decreases |items|
  {
    if items == [] then store
    else
      var last := items[|items| - 1];
      var init := items[..|items| - 1];
      assert (set j | 0 <= j < |items| :: items[j].id) == (set j | 0 <= j < |init| :: init[j].id) + {last.id} by {
        forall j | 0 <= j < |init| ensures init[j] == items[j] { }
      }
      PutAll(store, items[..|items| - 1])[last.id := last]
  }

  /** The reference reading of "last write wins": the last item in `items`
      whose id is `key`, if any. */
  function LastWrite(items: seq<Item>, key: string): (r: Option<Item>)
    ensures r.None? <==> forall j :: 0 <= j < |items| ==> items[j].id != key
    ensures r.Some? ==> r.value.id == key
    ensures r.Some? ==> exists j :: 0 <= j < |items| && items[j] == r.value &&
                                    forall j' :: j < j' < |items| ==> items[j'].id != key
    decreases |items|
  {
    if items == [] then None
    else if items[|items| - 1].id == key then Some(items[|items| - 1])
    else
      var r := LastWrite(items[..|items| - 1], key);
      assert forall j :: 0 <= j < |items| - 1 ==> items[..|items| - 1][j] == items[j];
      r
  }

  /** What the table holds at `key` after the puts: the last item written
      under `key`, or else what it held before. */
  lemma {:induction false} PutAllAt(store: map<string, Item>, items: seq<Item>, key: string)
    ensures key in PutAll(store, items) <==> LastWrite(items, key).Some? || key in store
    ensures key in PutAll(store, items) ==>
      PutAll(store, items)[key] == if LastWrite(items, key).Some? then LastWrite(items, key).value else store[key]
    decreases |items|
  {
    if items != [] {
      PutAllAt(store, items[..|items| - 1], key);
    }
  }

  /** Keys that no item is written under keep their entry, or their absence. */
  lemma PutAllFrame(store: map<string, Item>, items: seq<Item>, key: string)
    requires forall j :: 0 <= j < |items| ==> items[j].id != key
    ensures key in PutAll(store, items) <==> key in store
    ensures key in store ==> PutAll(store, items)[key] == store[key]
  {
    PutAllAt(store, items, key);
  }

  /** An item that no later item of the sequence overwrites is what the table
      holds under its id, whatever the timestamps say. */
  lemma PutAllLastWins(store: map<string, Item>, items: seq<Item>, j: nat)
    requires j < |items|
    requires forall j' :: j < j' < |items| ==> items[j'].id != items[j].id
    ensures items[j].id in PutAll(store, items) && PutAll(store, items)[items[j].id] == items[j]
  {
    var key := items[j].id;
    PutAllAt(store, items, key);
    var w := LastWrite(items, key).value;
    var i :| 0 <= i < |items| && items[i] == w && forall j' :: i < j' < |items| ==> items[j'].id != key;
    assert items[i].id == key && items[j].id == key;
  }

  /** Re-applying any prefix of the batch before the whole batch leaves the
      table as a single application would: a batch redelivered after a
      partial failure converges, and a fully applied batch is idempotent. */
  lemma PutAllPrefixAbsorbed(store: map<string, Item>, items: seq<Item>, k: nat)
    requires k <= |items|
    ensures PutAll(PutAll(store, items[..k]), items) == PutAll(store, items)
  {
    var once := PutAll(store, items);
    var first := PutAll(store, items[..k]);
    var twice := PutAll(first, items);
    forall key | true
      ensures key in twice <==> key in once
      ensures key in once ==> twice[key] == once[key]
    {
      PutAllAt(first, items, key);
      PutAllAt(store, items, key);
      PutAllAt(store, items[..k], key);
      if LastWrite(items, key).None? {
        forall j | 0 <= j < k ensures items[..k][j].id != key {
          assert items[..k][j] == items[j];
        }
      }
    }
    assert twice == once;
  }

  lemma PutAllIdempotent(store: map<string, Item>, items: seq<Item>)
    ensures PutAll(PutAll(store, items), items) == PutAll(store, items)
  {
    PutAllPrefixAbsorbed(store, items, |items|);
    assert items[..|items|] == items;
  }

  /** Record `r` goes through: its data decodes and its put succeeds. */
  predicate Delivered(r: KinesisEventRecord, fault: Option<ServiceError>) {
    Decode(r.data).Ok? && fault.None?
  }

  /** How many records, from the front of the batch, go through before the
      first that does not. */
  function Committed(records: seq<KinesisEventRecord>, faults: seq<Option<ServiceError>>): (k: nat)
    requires |faults| == |records|
    ensures k <= |records|
    ensures forall j :: 0 <= j < k ==> Delivered(records[j], faults[j])
    ensures k < |records| ==> !Delivered(records[k], faults[k])
    decreases |records|
  {
    if records == [] || !Delivered(records[0], faults[0]) then 0
    else 1 + Committed(records[1..], faults[1..])
  }

  /** How many records reach PutItem: those that go through, plus the
      failing one when it decoded and only its put failed. */
  function Attempted(records: seq<KinesisEventRecord>, faults: seq<Option<ServiceError>>): (n: nat)
    requires |faults| == |records|
    ensures n <= |records|
    ensures forall j :: 0 <= j < n ==> Decode(records[j].data).Ok?
  {
    var k := Committed(records, faults);
    if k < |records| && Decode(records[k].data).Ok? then k + 1 else k
  }

  /** The decoded items of the first `n` records. */
  function ItemsOf(records: seq<KinesisEventRecord>, n: nat): (items: seq<Item>)
    requires n <= |records|
    requires forall j :: 0 <= j < n ==> Decode(records[j].data).Ok?
  {
    seq(n, (j: int) requires 0 <= j < n => Decode(records[j].data).value)
  }

  function Lines(items: seq<Item>): seq<LogLine> {
    seq(|items|, (j: int) requires 0 <= j < |items| => Processing(items[j].id, items[j].message))
  }

  /** The error the handler returns when record `r` is the one that stops
      the batch. */
  function FailureOf(r: KinesisEventRecord, fault: Option<ServiceError>): HandlerError
    requires !Delivered(r, fault)
  {
    if Decode(r.data).Err? then DecodeFailed(Decode(r.data).error) else PutFailed(fault.value)
  }

  /** `HandleRequest`. `faults[i]` is what PutItem answers for record i if
      it is called. The records before the failing one stay written. */
  method HandleRequest(records: seq<KinesisEventRecord>, table: Table, out: Stdout<LogLine>,
                       faults: seq<Option<ServiceError>>)
    returns (err: Option<HandlerError>)
    requires |faults| == |records|
    modifies table, out
    ensures var k := Committed(records, faults);
      && table.items == PutAll(old(table.items), ItemsOf(records, k))
      && (err.None? <==> k == |records|)
      && (k < |records| ==> err == Some(FailureOf(records[k], faults[k])))
    ensures var n := Attempted(records, faults);
      && table.requests == old(table.requests) + ItemsOf(records, n)
      && out.lines == old(out.lines) + Lines(ItemsOf(records, n))
  {
    var i := 0;
    while i < |records|
      invariant 0 <= i <= |records|
      invariant forall j :: 0 <= j < i ==> Delivered(records[j], faults[j])
      invariant table.items == PutAll(old(table.items), ItemsOf(records, i))
      invariant table.requests == old(table.requests) + ItemsOf(records, i)
      invariant out.lines == old(out.lines) + Lines(ItemsOf(records, i))
    {
      var decoded := Decode(records[i].data);
      if decoded.Err? {
        CommittedAt(records, faults, i);
        return Some(DecodeFailed(decoded.error));
      }
      var item := decoded.value;
      out.Print(Processing(item.id, item.message));
      var putErr := table.PutItem(item, faults[i]);
      ItemsOfStep(records, i);
      if putErr.Some? {
        CommittedAt(records, faults, i);
        return Some(PutFailed(putErr.value));
      }
      i := i + 1;
    }
    CommittedAt(records, faults, i);
    return None;
  }

  /** The committed prefix ends at the first record that does not go
      through. */
  lemma {:induction false} CommittedAt(records: seq<KinesisEventRecord>, faults: seq<Option<ServiceError>>, i: nat)
    requires |faults| == |records| && i <= |records|
    requires forall j :: 0 <= j < i ==> Delivered(records[j], faults[j])
    requires i < |records| ==> !Delivered(records[i], faults[i])
    ensures Committed(records, faults) == i
    decreases i
  {
    if i > 0 {
      CommittedAt(records[1..], faults[1..], i - 1);
    }
  }

  lemma ItemsOfStep(records: seq<KinesisEventRecord>, i: nat)
    requires i < |records|
    requires forall j :: 0 <= j <= i ==> Decode(records[j].data).Ok?
    ensures ItemsOf(records, i + 1) == ItemsOf(records, i) + [Decode(records[i].data).value]
    ensures Lines(ItemsOf(records, i + 1)) == Lines(ItemsOf(records, i)) + [Processing(Decode(records[i].data).value.id, Decode(records[i].data).value.message)]
  {
    var a := ItemsOf(records, i);
    var b := ItemsOf(records, i + 1);
    assert b == a + [Decode(records[i].data).value];
    assert Lines(b) == Lines(a) + [Processing(b[i].id, b[i].message)];
  }

  /** Only the first `k` records are stored, and they are exactly the first
      `k` of a longer successful prefix. */
  lemma ItemsOfPrefix(records: seq<KinesisEventRecord>, k: nat, n: nat)
    requires k <= n <= |records|
    requires forall j :: 0 <= j < n ==> Decode(records[j].data).Ok?
    ensures ItemsOf(records, k) == ItemsOf(records, n)[..k]
  {
  }

  /** A batch redelivered whole after any attempt, failed or not, leaves
      the table as one successful delivery of that batch would. */
  lemma RedeliveryConverges(store: map<string, Item>, records: seq<KinesisEventRecord>,
                            firstFaults: seq<Option<ServiceError>>, retryFaults: seq<Option<ServiceError>>)
    requires |firstFaults| == |records| && |retryFaults| == |records|
    requires Committed(records, retryFaults) == |records|
    ensures var k := Committed(records, firstFaults);
      PutAll(PutAll(store, ItemsOf(records, k)), ItemsOf(records, |records|)) == PutAll(store, ItemsOf(records, |records|))
  {
    var k := Committed(records, firstFaults);
    ItemsOfPrefix(records, k, |records|);
    PutAllPrefixAbsorbed(store, ItemsOf(records, |records|), k);
  }

  /** Storing "m1" and then "m2" under the same id leaves "m2", even when the
      second write carries the older timestamp: no comparison is made, and
      no field is validated. */
  lemma LastDeliveredWins(store: map<string, Item>, id: string, t1: Int64, t2: Int64)
    ensures var records := [KinesisEventRecord(Parsed(Encode(Item(id, "m1", t1)))),
                            KinesisEventRecord(Parsed(Encode(Item(id, "m2", t2))))];
      && Committed(records, [None, None]) == 2
      && PutAll(store, ItemsOf(records, 2)) == store[id := Item(id, "m2", t2)]
  {
    var items := [Item(id, "m1", t1), Item(id, "m2", t2)];
    var records := [KinesisEventRecord(Parsed(Encode(items[0]))), KinesisEventRecord(Parsed(Encode(items[1])))];
    assert Decode(records[0].data) == Ok(items[0]) && Decode(records[1].data) == Ok(items[1]);
    CommittedAt(records, [None, None], 2);
    assert ItemsOf(records, 2) == items;
    PutAllTwo(store, items[0], items[1]);
  }

  lemma PutAllTwo(store: map<string, Item>, a: Item, b: Item)
    ensures PutAll(store, [a, b]) == store[a.id := a][b.id := b]
  {
    assert [a, b][..1] == [a] && [a][..0] == [];
    assert PutAll(store, []) == store;
    assert PutAll(store, [a]) == store[a.id := a];
  }

  /** Any item that decodes is written as it is, even one the ingress
      validation would reject (empty id or message, zero timestamp). */
  lemma WritesWithoutValidation(store: map<string, Item>, item: Item)
    ensures var records := [KinesisEventRecord(Parsed(Encode(item)))];
      && Committed(records, [None]) == 1
      && PutAll(store, ItemsOf(records, 1)) == store[item.id := item]
  {
    var records := [KinesisEventRecord(Parsed(Encode(item)))];
    assert ItemsOf(records, 1) == [item];
  }
}
