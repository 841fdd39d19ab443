# Serverless data processing pipeline, in Dafny

A model of the three AWS Lambda handlers of the serverless data
processing pipeline, and proofs about them:

- **upstream** (the ingress behind the HTTP API) decodes the request body
  into an `Item {id, message, timestamp}`, validates it (id, then
  message, then timestamp; the first failure names the error), publishes
  it on the Kinesis stream with the id as partition key and answers with
  a `{"message": …}` JSON body: 400 for a body that does not decode or
  validate, 500 when PutRecord fails, 200 `success` otherwise.
- **midstream** (the persister) decodes each Kinesis record of a batch
  into an Item, without validating it, and writes it whole into the
  DynamoDB table under its id. The first decode or PutItem failure ends
  the batch with that error.
- **downstream** (the observer) reads each DynamoDB stream record of a
  batch. For a new image it logs the item, computes the latency
  `now - timestamp` in int64 arithmetic and sends it to CloudWatch. A
  failed emission is logged and the handler goes on. For an old image it
  logs the item. An image whose timestamp does not parse ends the handler.

Files, one module each:

- `basics.dfy`: Option, Result, Go's int64 with wrap-around, service
  errors, and standard output as a line log.
- `strconv.dfy`: `strconv.ParseInt(s, 10, 64)` and `FormatInt`.
- `wire.dfy`: the Item, JSON values, and `encoding/json` decoding and
  encoding of an Item.
- `upstream.dfy`, `midstream.dfy`, `downstream.dfy`: the handlers.
  Each AWS service is a class whose fields are the state the handler
  changes (the stream's records, the table's items, the metrics stored)
  plus every request it received.
- `pipeline.dfy`: how the stages connect, end to end.

The answers of the AWS services are parameters (`fault`: `None` for
success, `Some(error)` otherwise). The clock reading `time.Now().Unix()`
is taken afresh for every call of `recordLatency`, so the observer takes
one reading per record, `nows[i]` for record i. The stream name taken
from STREAM_NAME is the stream object's `name`.

Three consequences of the code are worth stating up front:

- In midstream the records before the failing one stay written; nothing
  is rolled back (`Midstream.HandleRequest`).
  `Midstream.RedeliveryConverges` shows that a redelivered batch still
  ends in the table a single successful delivery would leave.
- `handleRequest` in the observer has no error result, so an extraction
  error skips the rest of the batch and the invocation succeeds
  (`Downstream.NothingAfterStop`).
- DynamoDB Streams emits no record for a PutItem that leaves the item
  unchanged, so such a write is never observed (`Pipeline.ObservesWrite`).

## Model

| member | source | states |
|---|---|---|
| Basics.Wrap | lambda/src/downstream/main.go:45 | int64 subtraction: the exact value when it fits, otherwise the value congruent to it modulo 2^64 |
| Basics.Stdout.constructor | lambda/src/upstream/main.go:78 | a process starts with nothing printed |
| Basics.Stdout.Print | lambda/src/upstream/main.go:78 | printing appends exactly one line and leaves the earlier ones |
| Strconv.ScanDigitsCorrect | lambda/src/downstream/main.go:33 | ParseUint's digit loop succeeds exactly on all-digit strings whose value is at most 2^64-1, and yields that value |
| Strconv.ParseInt | lambda/src/downstream/main.go:33 | accepts exactly the optionally signed decimal strings whose value lies in the int64 range, and returns that value |
| Strconv.DecimalDigitsValue | lambda/src/midstream/main.go:50 | the decimal text of a number is a non-empty digit string that denotes exactly that number |
| Strconv.FormatInt | lambda/src/midstream/main.go:50 | the decimal text of an int64 is non-empty, starts with `-` exactly for a negative number, and reads back through ParseInt as the same int64 |
| Wire.DecodeMembersError | lambda/src/midstream/main.go:40-41 | the decoder's walk over an object reports an error exactly when some member's key selects a field its value does not fit, or an error was already pending |
| Wire.Decode | lambda/src/midstream/main.go:40-44 | unparsable text is a syntax error, top-level `null` gives the zero Item, any other non-object is a type error; an object decodes exactly when no member that selects a field has a value of the wrong JSON type, so unknown keys never matter |
| Wire.Encode | lambda/src/upstream/main.go:93 | `json.Marshal(item)` gives an object that decodes back to the same Item, for every Item, valid or not |
| Upstream.Validate | lambda/src/upstream/main.go:36-45 | no error exactly for a valid item; otherwise the error names the first failed check: id, then message, then timestamp |
| Upstream.UnmarshalItem | lambda/src/upstream/main.go:26-46 | the body is accepted exactly when it decodes to a valid item, and then yields that item; a decode error is passed on; a decoded invalid item fails with its validation error |
| Upstream.RestResponse | lambda/src/upstream/main.go:48-69 | the response carries the given status, a JSON body holding exactly the message, and the `application/json` content type |
| Upstream.Publication | lambda/src/upstream/main.go:93-103 | the record put on the stream is keyed by the item's id and its data decodes back to the item |
| Upstream.KinesisStream.constructor | lambda/src/upstream/main.go:90 | a stream starts empty, with no requests received |
| Upstream.KinesisStream.PutRecord | lambda/src/upstream/main.go:99-103 | every call is recorded as a request; the record is appended to the stream exactly when the service answers with no error, and that answer is returned |
| Upstream.HandleRequest | lambda/src/upstream/main.go:71-109 | a body that does not unmarshal gets 400 with the unmarshal error, and nothing is printed or published; an accepted item is printed, published once keyed by its id, and gets 200 `success`, or 500 naming the stream and the service error, in which case the stream is unchanged |
| Upstream.AcceptsExactlyValid | lambda/src/upstream/main.go:26-46 | an encoded item is accepted exactly when it is valid, and then as that very item; otherwise with the error of its first failed check |
| Upstream.EmptyBodyNeedsId | lambda/src/upstream/main.go:36-38 | an empty object and a top-level `null` both fail with `id is required` |
| Midstream.Table.constructor | lambda/src/midstream/main.go:34 | a table holds the given items and has received no requests |
| Midstream.Table.PutItem | lambda/src/midstream/main.go:56-59 | every call is recorded as a request; on success the whole item replaces whatever its id held, and on failure the table is unchanged |
| Midstream.LastWrite | lambda/src/midstream/main.go:36-63 | the last item of a sequence with the given id: none exactly when no item has that id, and otherwise one with that id and no later item with that id |
| Midstream.PutAll | lambda/src/midstream/main.go:56-59 | the keys after a sequence of puts are the keys before plus the id of every item put |
| Midstream.PutAllAt | lambda/src/midstream/main.go:56-59 | after a sequence of puts a key holds the last item written under it, or else what it held before |
| Midstream.PutAllFrame | lambda/src/midstream/main.go:56-59 | keys that no put names keep their entry, or their absence |
| Midstream.PutAllLastWins | lambda/src/midstream/main.go:56-59 | an item that no later put overwrites is what its id holds, whatever the timestamps say |
| Midstream.PutAllPrefixAbsorbed | lambda/src/midstream/main.go:36-63 | applying any prefix of a batch before the whole batch leaves the same table as applying the batch once |
| Midstream.PutAllIdempotent | lambda/src/midstream/main.go:56-59 | applying a batch of puts twice leaves the same table as applying it once |
| Midstream.PutAllTwo | lambda/src/midstream/main.go:56-59 | two puts update the table by the first item's id and then by the second's |
| Midstream.Committed | lambda/src/midstream/main.go:36-63 | the number of leading records that decode and are put successfully; the record after them does not go through |
| Midstream.Attempted | lambda/src/midstream/main.go:36-63 | the records that reach PutItem all decode, and they are at most the whole batch |
| Midstream.HandleRequest | lambda/src/midstream/main.go:23-66 | the table holds the starting items updated by the committed prefix, in order; the result is no error exactly when the whole batch goes through, and otherwise the decode or put error of the first record that does not; every decoded record up to that one is printed and sent to PutItem |
| Midstream.CommittedAt | lambda/src/midstream/main.go:36-63 | when every record before position i goes through and the one at i does not (or the batch ends), the committed prefix has length exactly i |
| Midstream.ItemsOfStep | lambda/src/midstream/main.go:36-47 | one more decoded record adds its item and its `Processing` line at the end |
| Midstream.ItemsOfPrefix | lambda/src/midstream/main.go:36-63 | the items stored by a shorter run are a prefix of those of a longer one |
| Midstream.RedeliveryConverges | lambda/src/midstream/main.go:60-62 | whatever part of a batch a failed attempt wrote, a later successful redelivery of the whole batch leaves the table a single successful delivery would |
| Midstream.LastDeliveredWins | lambda/src/midstream/main.go:56-59 | two writes under the same id leave the second, even when it carries the older timestamp |
| Midstream.WritesWithoutValidation | lambda/src/midstream/main.go:40-59 | any item that decodes is sent to PutItem as it is, even one with empty fields or a zero timestamp (the service rejects an empty id) |
| Downstream.ExtractItem | lambda/src/downstream/main.go:26-39 | extraction succeeds exactly when the timestamp attribute is a decimal int64, and then copies id and message and yields that timestamp's value |
| Downstream.Latency | lambda/src/downstream/main.go:43-45 | `now - timestamp`: exact when it fits in int64 (in particular when both are non-negative), otherwise wrapped modulo 2^64; never clamped |
| Downstream.CloudWatch.constructor | lambda/src/downstream/main.go:74 | the service starts with no requests and no stored metrics |
| Downstream.CloudWatch.PutMetricData | lambda/src/downstream/main.go:48-59 | every call is recorded as a request; the metric is stored exactly when the service answers with no error, and that answer is returned |
| Downstream.RecordLatency | lambda/src/downstream/main.go:41-61 | one request is sent under the fixed namespace, metric name and unit, carrying the latency of the item at the clock reading `now`; the service's error is returned |
| Downstream.ObserveRecord | lambda/src/downstream/main.go:77-101 | the handling of one record ends the handler exactly when the new image, or else the reached old image, fails extraction |
| Downstream.HandleRecord | lambda/src/downstream/main.go:77-101 | one loop iteration prints, sends and lets CloudWatch store exactly what ObserveRecord describes, and reports whether the handler returns |
| Downstream.ObserveFrom | lambda/src/downstream/main.go:76-102 | the handler stops exactly when the last line it printed is an extraction error; it stores no more metrics than it sent, and sends no more than there are records with a new image |
| Downstream.HandleRequest | lambda/src/downstream/main.go:63-103 | the lines printed, the metric requests sent and those stored over a batch are exactly those of the records up to the first extraction error, each record's latency taken at its own clock reading |
| Downstream.ThenAssoc | lambda/src/downstream/main.go:76-102 | effects of consecutive records compose associatively |
| Downstream.BothImages | lambda/src/downstream/main.go:77-101 | with both images extractable, `New` is printed before `Old`, a failed emission is printed between them and does not stop the handler, and exactly one metric is sent, computed from the new image alone |
| Downstream.NoImages | lambda/src/downstream/main.go:78-94 | a record with neither image prints and sends nothing |
| Downstream.NewImageFailureStops | lambda/src/downstream/main.go:79-83 | a new image whose timestamp does not extract prints the error and ends the handler before any metric is sent and before the old image is read |
| Downstream.RecordSends | lambda/src/downstream/main.go:78-91 | a record sends at most one metric request, only when it has a new image, and that request is the latency of the new image's item; CloudWatch stores at most what was sent; the record stops the handler exactly when its last line is an extraction error |
| Downstream.MetricsFromNewImages | lambda/src/downstream/main.go:76-91 | every metric request of a batch is the latency request, under the fixed namespace, metric name and unit, for the item in the new image of one of its records at that record's clock reading |
| Downstream.NothingAfterStop | lambda/src/downstream/main.go:80-83 | once the handler has returned on an extraction error, appending any records to the batch changes nothing it does |
| Pipeline.ImageOf | lambda/src/midstream/main.go:50 | the image `MarshalMap` makes of an item has the attribute types the observer needs, and the observer extracts from it exactly that item |
| Pipeline.PublishedDecodes | lambda/src/upstream/main.go:93-103 | what the ingress publishes for an accepted body is keyed by the item's id and decodes in the persister back to that very item |
| Pipeline.PersistsPublications | lambda/src/midstream/main.go:36-63 | a batch of publications whose puts all succeed goes through whole, and the persister writes exactly the published items, in order |
| Pipeline.ObservesWrite | lambda/src/downstream/main.go:76-101 | a write yields no stream record exactly when the item is already stored unchanged; otherwise the observer prints the item as `New`, then the item it replaced as `Old`, and sends one latency metric computed from the new item only |
| Pipeline.Example | lambda/src/downstream/main.go:41-61 | `{"id":"a","message":"hi","timestamp":1000}` is accepted, read back from its image unchanged, and observed at 1050 with a latency metric of 50 |

## Left out

- The JSON text grammar: a body or record is modelled by the JSON value it parses to, or as unparsable.
- Go's key matching in the decoder is modelled for ASCII letters only; Unicode case folding is not modelled.
- Error texts of the decoder, of ParseInt and of the AWS services are kept only in shape; the three validation messages and the handlers' own prefixes are exact.
- The 500 `failed to marshal payload` branch (upstream/main.go:94-96) and the error branch of `restResponse` (upstream/main.go:53-61) are not modelled: marshalling an Item or a `MyResponse` cannot fail.
- The error branch after `MarshalMap` (midstream/main.go:50-53) is not modelled for the same reason.
- Pipeline.ImageOf: does not model MarshalMap encoding empty strings as NULL attributes, so `Pipeline.ObservesWrite` requires the replaced item's strings to be non-empty.
- Downstream.HandleRequest: requires that every image the handler reaches has a String `id`, a String `message` and a Number `timestamp`; otherwise the SDK accessors panic, and panics are not modelled.
- Downstream.ExtractItem: requires those attribute types for the same reason.
- DynamoDB's own checks on an item (an empty `id` key is rejected) are not modelled separately; they are one of the answers the `fault` parameter of `Midstream.Table.PutItem` can give.
- The conversion of the latency to `float64` for the metric value is not modelled; the metric carries the int64.
- Session and client construction, `AWS_ENDPOINT_URL`, and the table name from `TABLE_NAME` are configuration and are not modelled.
- The request context, the Lambda runtime (`lambda.Start`), concurrency across shards and the infrastructure's batch redelivery are not modelled; redelivery is stated only as lemmas about repeated batches.
- The CDK stack and the load-test script are not part of this model.
- Printed lines are modelled by their content, not by their exact `fmt` formatting.
