/** The change observer: triggered with a batch of DynamoDB stream records,
    it logs each record's new and old image and, for a new image, sends the
    pipeline's end-to-end latency to CloudWatch. */
module Downstream {
  import opened Basics
  import opened Strconv
  import opened Wire

  /** `events.DynamoDBAttributeValue`, distinguishing the two types the
      handler reads: String (`S`) and Number (`N`, carried as its decimal
      text). Every other type (binary, boolean, null, list, map, sets) is
      `Other`. */
  datatype AttributeValue = S(s: string) | N(n: string) | Other

  type Image = map<string, AttributeValue>

  /** A stream record, reduced to `record.Change.NewImage` and
      `record.Change.OldImage`; `None` is a nil image. */
  datatype ChangeRecord = ChangeRecord(newImage: Option<Image>, oldImage: Option<Image>)

  /** The image has the attributes `extractItem` reads, with the types its
      accessors demand (the accessors panic otherwise). */
  predicate Extractable(image: Image) {
    && "id" in image && image["id"].S?
    && "message" in image && image["message"].S?
    && "timestamp" in image && image["timestamp"].N?
  }

  /** `extractItem`: the two strings are copied; the timestamp is the
      Number's text read by ParseInt, whose failure is the only error. */
  function ExtractItem(image: Image): (r: Result<Item, NumError>)
    requires Extractable(image)
    ensures var t := image["timestamp"].n;
      r.Ok? <==> IsDecimal(t) && MinInt64 <= SignedValue(t) <= MaxInt64
    ensures r.Ok? ==> r.value == Item(image["id"].s, image["message"].s, SignedValue(image["timestamp"].n))
  {
    match ParseInt(image["timestamp"].n)
    case Err(e) => Err(e)
    case Ok(ts) => Ok(Item(image["id"].s, image["message"].s, ts))
  }

  /** The int64 difference `currentTimestamp - oldTimestamp`: the exact
      difference when it fits, else its two's-complement wrap-around. It is
      not clamped, so it is negative when the item's timestamp lies ahead of
      the observation time. */
  function Latency(now: Int64, item: Item): (r: Int64)
    ensures MinInt64 <= now - item.timestamp <= MaxInt64 ==> r == now - item.timestamp
    ensures (now - item.timestamp - r) % TwoTo64 == 0
    ensures 0 <= now && 0 <= item.timestamp ==> r == now - item.timestamp
  {
    Wrap(now - item.timestamp)
  }

  const Namespace: string := "ServerlessDataProcessingPipeline/Latencies"
  const MetricName: string := "Latency"
  const Unit: string := "Count"

  datatype MetricDatum = MetricDatum(metricName: string, unit: string, value: Int64)

  /** `cloudwatch.PutMetricDataInput`. */
  datatype PutMetricDataInput = PutMetricDataInput(namespace: string, metricData: seq<MetricDatum>)

  /** The request `recordLatency` sends for `item` observed at `now`. */
  function LatencyInput(now: Int64, item: Item): PutMetricDataInput {
    PutMetricDataInput(Namespace, [MetricDatum(MetricName, Unit, Latency(now, item))])
  }

  /** The lines printed: `New %s`, `Old %s`, and the two error lines. */
  datatype LogLine =
    | New(item: Item)
    | Old(item: Item)
    | ExtractFailed(cause: NumError)
    | EmitFailed(error: ServiceError)

  /** CloudWatch metrics, as the requests it received and those it stored. */
  class CloudWatch {
    var requests: seq<PutMetricDataInput>
    var stored: seq<PutMetricDataInput>

    constructor ()
      ensures requests == [] && stored == []
    {
      requests := [];
      stored := [];
    }

    /** `cwm.PutMetricData`; `fault` is the service's answer, chosen by the
        environment. */
    method PutMetricData(input: PutMetricDataInput, fault: Option<ServiceError>) returns (err: Option<ServiceError>)
      modifies this
      ensures err == fault
      ensures requests == old(requests) + [input]
      ensures stored == if fault.None? then old(stored) + [input] else old(stored)
    {
      requests := requests + [input];
      if fault.None? {
        stored := stored + [input];
      }
      err := fault;
    }
  }

  /** `recordLatency`, with the clock reading `now` as a parameter. */
  method RecordLatency(cwm: CloudWatch, now: Int64, item: Item, fault: Option<ServiceError>)
    returns (err: Option<ServiceError>)
    modifies cwm
    ensures err == fault
    ensures cwm.requests == old(cwm.requests) + [LatencyInput(now, item)]
    ensures cwm.stored == old(cwm.stored) + (if fault.None? then [LatencyInput(now, item)] else [])
  {
    var totalLatency := Latency(now, item);
    err := cwm.PutMetricData(PutMetricDataInput(Namespace, [MetricDatum(MetricName, Unit, totalLatency)]), fault);
  }

  /** What handling some records does: the lines printed, the metric
      requests sent, those CloudWatch stored, and whether the handler
      returned early. */
  datatype Effects = Effects(lines: seq<LogLine>, sent: seq<PutMetricDataInput>,
                             stored: seq<PutMetricDataInput>, stopped: bool)

  const NoEffects := Effects([], [], [], false)

  /** `a`, then `b`. */
  function Then(a: Effects, b: Effects): Effects {
    Effects(a.lines + b.lines, a.sent + b.sent, a.stored + b.stored, b.stopped)
  }

  /** The images the handler reaches while handling `r` are extractable:
      the new image if present, and the old image if present and the new one
      did not already stop the handler. */
  predicate RecordWellTyped(r: ChangeRecord) {
    && (r.newImage.Some? ==> Extractable(r.newImage.value))
    && (r.oldImage.Some? && (r.newImage.Some? ==> ExtractItem(r.newImage.value).Ok?) ==>
          Extractable(r.oldImage.value))
  }

  /** Handling `r` ends in an extraction error, which returns from the
      handler. */
  predicate Stops(r: ChangeRecord)
    requires RecordWellTyped(r)
  {
    if r.newImage.Some? && ExtractItem(r.newImage.value).Err? then true
    else r.oldImage.Some? && ExtractItem(r.oldImage.value).Err?
  }

  /** The first half of an iteration: the new image, if any, is logged and
      its latency sent; `fault` is what PutMetricData answers. */
  function NewImageEffects(r: ChangeRecord, now: Int64, fault: Option<ServiceError>): Effects
    requires r.newImage.Some? ==> Extractable(r.newImage.value)
  {
    match r.newImage
    case None => NoEffects
    case Some(image) =>
      match ExtractItem(image)
      case Err(cause) => Effects([ExtractFailed(cause)], [], [], true)
      case Ok(item) =>
        var input := LatencyInput(now, item);
        Effects([New(item)] + (if fault.Some? then [EmitFailed(fault.value)] else []),
                [input], if fault.None? then [input] else [], false)
  }

  /** The second half: the old image, if any, is logged. */
  function OldImageEffects(r: ChangeRecord): Effects
    requires r.oldImage.Some? ==> Extractable(r.oldImage.value)
  {
    match r.oldImage
    case None => NoEffects
    case Some(image) =>
      match ExtractItem(image)
      case Err(cause) => Effects([ExtractFailed(cause)], [], [], true)
      case Ok(item) => Effects([Old(item)], [], [], false)
  }

  /** One iteration of the handler's loop; `fault` is what PutMetricData
      answers if it is called. */
  function ObserveRecord(r: ChangeRecord, now: Int64, fault: Option<ServiceError>): (e: Effects)
    requires RecordWellTyped(r)
    ensures e.stopped == Stops(r)
  {
    var first := NewImageEffects(r, now, fault);
    if first.stopped then first else Then(first, OldImageEffects(r))
  }

  /** The images the handler reaches from record `i` on are extractable. */
  predicate WellTyped(records: seq<ChangeRecord>, i: nat)
    requires i <= |records|
    decreases |records| - i
  {
    i == |records| || (RecordWellTyped(records[i]) && (!Stops(records[i]) ==> WellTyped(records, i + 1)))
  }

  /** The handler's loop from record `i` to the end of the batch or to the
      first extraction error; `nows[j]` is the clock reading that
      `recordLatency` takes for record `j`. The handler returned early
      exactly when the last line it printed is an extraction error; it sends
      at most one metric request per record carrying a new image, and
      CloudWatch stores no more than it was sent. */
  function ObserveFrom(records: seq<ChangeRecord>, faults: seq<Option<ServiceError>>, nows: seq<Int64>, i: nat): (e: Effects)
    requires |faults| == |records| && |nows| == |records| && i <= |records| && WellTyped(records, i)
    ensures e.stopped <==> EndsInError(e.lines)
    ensures |e.stored| <= |e.sent| <= NewImages(records, i)
    decreases |records| - i
  {
    if i == |records| then NoEffects
    else
      var step := ObserveRecord(records[i], nows[i], faults[i]);
      RecordSends(records[i], nows[i], faults[i]);
      if step.stopped then step
      else
        var rest := ObserveFrom(records, faults, nows, i + 1);
        EndsInErrorAppend(step.lines, rest.lines);
        Then(step, rest)
  }

  /** The last line printed is an extraction error. */
  predicate EndsInError(lines: seq<LogLine>) {
    |lines| > 0 && lines[|lines| - 1].ExtractFailed?
  }

  lemma EndsInErrorAppend(a: seq<LogLine>, b: seq<LogLine>)
    ensures EndsInError(a + b) <==> if b == [] then EndsInError(a) else EndsInError(b)
  {
    if b != [] {
      assert (a + b)[|a + b| - 1] == b[|b| - 1];
    } else {
      assert a + b == a;
    }
  }

  /** The body of `handleRequest`'s loop for one record; it answers whether
      the handler returns there. */
  method HandleRecord(record: ChangeRecord, now: Int64, cwm: CloudWatch, out: Stdout<LogLine>,
                      fault: Option<ServiceError>)
    returns (stop: bool)
    requires RecordWellTyped(record)
    modifies cwm, out
    ensures var e := ObserveRecord(record, now, fault);
      && stop == e.stopped
      && out.lines == old(out.lines) + e.lines
      && cwm.requests == old(cwm.requests) + e.sent
      && cwm.stored == old(cwm.stored) + e.stored
  {
    ghost var first := NewImageEffects(record, now, fault);
    if record.newImage.Some? {
      var extracted := ExtractItem(record.newImage.value);
      if extracted.Err? {
        out.Print(ExtractFailed(extracted.error));
        return true;
      }
      var item := extracted.value;
      out.Print(New(item));
      var err := RecordLatency(cwm, now, item, fault);
      if err.Some? {
        out.Print(EmitFailed(err.value));
      }
    }
    assert out.lines == old(out.lines) + first.lines;
    assert cwm.requests == old(cwm.requests) + first.sent && cwm.stored == old(cwm.stored) + first.stored;
    ghost var lines1 := out.lines;
    if record.oldImage.Some? {
      var extracted := ExtractItem(record.oldImage.value);
      if extracted.Err? {
        out.Print(ExtractFailed(extracted.error));
        return true;
      }
      out.Print(Old(extracted.value));
    }
    assert out.lines == lines1 + OldImageEffects(record).lines;
    return false;
  }

  /** `handleRequest`. `nows[i]` is what the clock reads when
      `recordLatency` runs for record i, and `faults[i]` is what
      PutMetricData answers then, if it is called. The handler has no
      error result: an extraction error ends it silently. */
  method HandleRequest(records: seq<ChangeRecord>, nows: seq<Int64>, cwm: CloudWatch, out: Stdout<LogLine>,
                       faults: seq<Option<ServiceError>>)
    requires |faults| == |records| && |nows| == |records| && WellTyped(records, 0)
    modifies cwm, out
    ensures var e := ObserveFrom(records, faults, nows, 0);
      && out.lines == old(out.lines) + e.lines
      && cwm.requests == old(cwm.requests) + e.sent
      && cwm.stored == old(cwm.stored) + e.stored
  {
    ghost var total := ObserveFrom(records, faults, nows, 0);
    ghost var done := NoEffects;
    var i := 0;
    while i < |records|
      invariant 0 <= i <= |records| && WellTyped(records, i)
      invariant total == Then(done, ObserveFrom(records, faults, nows, i))
      invariant out.lines == old(out.lines) + done.lines
      invariant cwm.requests == old(cwm.requests) + done.sent
      invariant cwm.stored == old(cwm.stored) + done.stored
    {
      ghost var step := ObserveRecord(records[i], nows[i], faults[i]);
      ghost var lines0, sent0, stored0 := out.lines, cwm.requests, cwm.stored;
      var stop := HandleRecord(records[i], nows[i], cwm, out, faults[i]);
      assert out.lines == lines0 + step.lines && cwm.requests == sent0 + step.sent && cwm.stored == stored0 + step.stored;
      AppendAssoc(old(out.lines), done.lines, step.lines);
      AppendAssoc(old(cwm.requests), done.sent, step.sent);
      AppendAssoc(old(cwm.stored), done.stored, step.stored);
      if stop {
        assert ObserveFrom(records, faults, nows, i) == step;
        return;
      }
      ThenAssoc(done, step, ObserveFrom(records, faults, nows, i + 1));
      done := Then(done, step);
      i := i + 1;
    }
    assert ObserveFrom(records, faults, nows, i) == NoEffects;
    assert total == Effects(done.lines + [], done.sent + [], done.stored + [], false);
    assert done.lines + [] == done.lines && done.sent + [] == done.sent && done.stored + [] == done.stored;
  }

  lemma AppendAssoc<T>(a: seq<T>, b: seq<T>, c: seq<T>)
    ensures (a + b) + c == a + (b + c)
  {
  }

  lemma ThenAssoc(a: Effects, b: Effects, c: Effects)
    ensures Then(Then(a, b), c) == Then(a, Then(b, c))
  {
    assert (a.lines + b.lines) + c.lines == a.lines + (b.lines + c.lines);
    assert (a.sent + b.sent) + c.sent == a.sent + (b.sent + c.sent);
    assert (a.stored + b.stored) + c.stored == a.stored + (b.stored + c.stored);
  }

  /** A record with both images, both extractable: "New" is logged before
      "Old", exactly one metric request is sent, and it is derived from the
      new image alone; a failed emission adds its error line between them
      and the handler goes on. */
  lemma BothImages(newImage: Image, oldImage: Image, now: Int64, fault: Option<ServiceError>)
    requires Extractable(newImage) && ExtractItem(newImage).Ok?
    requires Extractable(oldImage) && ExtractItem(oldImage).Ok?
    ensures var e := ObserveRecord(ChangeRecord(Some(newImage), Some(oldImage)), now, fault);
      var n, o := ExtractItem(newImage).value, ExtractItem(oldImage).value;
      && e.lines == [New(n)] + (if fault.Some? then [EmitFailed(fault.value)] else []) + [Old(o)]
      && e.sent == [LatencyInput(now, n)]
      && e.stored == (if fault.None? then [LatencyInput(now, n)] else [])
      && !e.stopped
  {
  }

  /** A record without images logs nothing and sends nothing. */
  lemma NoImages(now: Int64, fault: Option<ServiceError>)
    ensures ObserveRecord(ChangeRecord(None, None), now, fault) == NoEffects
  {
  }

  /** A new image whose timestamp does not extract ends the handler before
      any metric is sent and before the old image is looked at. */
  lemma NewImageFailureStops(r: ChangeRecord, now: Int64, fault: Option<ServiceError>)
    requires RecordWellTyped(r) && r.newImage.Some? && ExtractItem(r.newImage.value).Err?
    ensures ObserveRecord(r, now, fault) == Effects([ExtractFailed(ExtractItem(r.newImage.value).error)], [], [], true)
  {
  }

  /** How many records from `i` on carry a new image. */
  function NewImages(records: seq<ChangeRecord>, i: nat): nat
    requires i <= |records|
    decreases |records| - i
  {
    if i == |records| then 0
    else (if records[i].newImage.Some? then 1 else 0) + NewImages(records, i + 1)
  }

  /** A metric request that a record sends is `recordLatency`'s request for
      the item extracted from that record's new image. */
  predicate SentFor(r: ChangeRecord, now: Int64, input: PutMetricDataInput) {
    && r.newImage.Some? && Extractable(r.newImage.value) && ExtractItem(r.newImage.value).Ok?
    && input == LatencyInput(now, ExtractItem(r.newImage.value).value)
  }

  /** A record sends at most one metric request, only when it has a new
      image, and that request is the new image's latency; its handling ends
      the handler exactly when its last line is an extraction error. */
  lemma RecordSends(r: ChangeRecord, now: Int64, fault: Option<ServiceError>)
    requires RecordWellTyped(r)
    ensures var e := ObserveRecord(r, now, fault);
      && |e.sent| <= (if r.newImage.Some? then 1 else 0)
      && (forall k :: 0 <= k < |e.sent| ==> SentFor(r, now, e.sent[k]))
      && |e.stored| <= |e.sent|
      && (e.stopped <==> EndsInError(e.lines))
  {
  }

  /** Every metric request of a batch (the `k`-th, for any `k`) is the
      latency request for the item in the new image of one of its records,
      taken at that record's clock reading. */
  lemma {:induction false} MetricsFromNewImages(records: seq<ChangeRecord>, faults: seq<Option<ServiceError>>,
                                               nows: seq<Int64>, i: nat, k: nat)
    requires |faults| == |records| && |nows| == |records| && i <= |records| && WellTyped(records, i)
    requires k < |ObserveFrom(records, faults, nows, i).sent|
    ensures exists j :: i <= j < |records| && SentFor(records[j], nows[j], ObserveFrom(records, faults, nows, i).sent[k])
    decreases |records| - i
  {
    var step := ObserveRecord(records[i], nows[i], faults[i]);
    RecordSends(records[i], nows[i], faults[i]);
    if k < |step.sent| {
      assert ObserveFrom(records, faults, nows, i).sent[k] == step.sent[k];
      assert SentFor(records[i], nows[i], step.sent[k]);
    } else {
      var rest := ObserveFrom(records, faults, nows, i + 1);
      assert ObserveFrom(records, faults, nows, i).sent == step.sent + rest.sent;
      MetricsFromNewImages(records, faults, nows, i + 1, k - |step.sent|);
      var j :| i + 1 <= j < |records| && SentFor(records[j], nows[j], rest.sent[k - |step.sent|]);
      assert SentFor(records[j], nows[j], ObserveFrom(records, faults, nows, i).sent[k]);
    }
  }

  /** Once the handler has returned on an extraction error, the records
      after that point are never looked at: appending any records (with any
      clock readings and service answers) to the batch changes nothing. */
  lemma {:induction false} NothingAfterStop(records: seq<ChangeRecord>, faults: seq<Option<ServiceError>>,
                                           nows: seq<Int64>, more: seq<ChangeRecord>,
                                           moreFaults: seq<Option<ServiceError>>, moreNows: seq<Int64>, i: nat)
    requires |faults| == |records| && |nows| == |records| && i <= |records| && WellTyped(records, i)
    requires |moreFaults| == |more| && |moreNows| == |more|
    requires ObserveFrom(records, faults, nows, i).stopped
    ensures WellTyped(records + more, i)
    ensures ObserveFrom(records + more, faults + moreFaults, nows + moreNows, i) == ObserveFrom(records, faults, nows, i)
    decreases |records| - i
  {
    var all := records + more;
    assert all[i] == records[i];
    assert (faults + moreFaults)[i] == faults[i] && (nows + moreNows)[i] == nows[i];
    if !Stops(records[i]) {
      NothingAfterStop(records, faults, nows, more, moreFaults, moreNows, i + 1);
    }
  }
}
