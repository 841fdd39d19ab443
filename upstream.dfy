/** The ingress handler behind the HTTP API: it decodes and validates the
    request body, publishes the item to the Kinesis stream with the item's id
    as partition key, and answers with a `{message}` JSON body. */
module Upstream {
  import opened Basics
  import opened Wire

  datatype ValidationError = IdRequired | MessageRequired | TimestampRequired

  /** The errors `json.Unmarshal(body, &item)` can return once `Item` has a
      custom `UnmarshalJSON`: the decoder's own, or a validation failure. */
  datatype UnmarshalError = Malformed(cause: DecodeError) | Invalid(reason: ValidationError)

  predicate Valid(item: Item) {
    item.id != "" && item.message != "" && item.timestamp != 0
  }

  /** The three checks of `UnmarshalJSON`, in their order; the first that
      fails names the error. */
  function Validate(item: Item): (r: Option<ValidationError>)
    ensures r.None? <==> Valid(item)
    ensures r == Some(IdRequired) <==> item.id == ""
    ensures r == Some(MessageRequired) <==> item.id != "" && item.message == ""
    ensures r == Some(TimestampRequired) <==> item.id != "" && item.message != "" && item.timestamp == 0
  {
    if item.id == "" then Some(IdRequired)
    else if item.message == "" then Some(MessageRequired)
    else if item.timestamp == 0 then Some(TimestampRequired)
    else None
  }

  function ValidationText(e: ValidationError): string {
    match e
    case IdRequired => "id is required"
    case MessageRequired => "message is required"
    case TimestampRequired => "timestamp is required"
  }

  function ErrorText(e: UnmarshalError): string {
    match e
    case Malformed(cause) => DecodeErrorText(cause)
    case Invalid(reason) => ValidationText(reason)
  }

  /** `json.Unmarshal([]byte(request.Body), &item)`, which runs
      `Item.UnmarshalJSON`: the plain decode of the fields, then validation.
      Text that is not JSON is rejected before `UnmarshalJSON` runs, with the
      same syntax error. */
  function UnmarshalItem(body: Payload): (r: Result<Item, UnmarshalError>)
    ensures r.Ok? <==> Decode(body).Ok? && Valid(Decode(body).value)
    ensures r.Ok? ==> r.value == Decode(body).value
    ensures Decode(body).Err? ==> r == Err(Malformed(Decode(body).error))
    ensures Decode(body).Ok? && !Valid(Decode(body).value) ==>
      r == Err(Invalid(Validate(Decode(body).value).value))
  {
    match Decode(body)
    case Err(e) => Err(Malformed(e))
    case Ok(item) =>
      match Validate(item)
      case Some(reason) => Err(Invalid(reason))
      case None => Ok(item)
  }

  /** `events.APIGatewayProxyResponse`; the body is the JSON value that the
      marshalled text denotes. */
  datatype Response = Response(statusCode: int, body: Json, headers: map<string, string>)

  /** What a client reads out of a `{message}` body. */
  function ResponseMessage(body: Json): Option<string> {
    match body
    case JObject(members) =>
      if |members| == 1 && members[0].0 == "message" && members[0].1.JString?
      then Some(members[0].1.s) else None
    case _ => None
  }

  /** `restResponse`: marshalling `MyResponse{Message}` cannot fail (it has
      one string field), so the response always carries the given status, a
      JSON body holding exactly the message, and the JSON content type. */
  function RestResponse(status: int, message: string): (r: Response)
    ensures r.statusCode == status
    ensures ResponseMessage(r.body) == Some(message)
    ensures r.headers == map["Content-Type" := "application/json"]
  {
    Response(status, JObject([("message", JString(message))]), map["Content-Type" := "application/json"])
  }

  /** A record handed to PutRecord: the partition key and the data bytes. */
  datatype StreamRecord = StreamRecord(partitionKey: string, data: Payload)

  /** The stream's record as the handler publishes it for a validated item:
      keyed by the item's id, with data that decodes back to the item. */
  function Publication(item: Item): (r: StreamRecord)
    ensures r.partitionKey == item.id
    ensures Decode(r.data) == Ok(item)
  {
    StreamRecord(item.id, Parsed(Encode(item)))
  }

  /** The line `fmt.Println("Received item: ", item.ID, item.Message)`. */
  datatype LogLine = Received(id: string, message: string)

  /** The Kinesis stream named by STREAM_NAME. */
  class KinesisStream {
    const name: string
    /** The records the stream holds, in the order they were accepted. */
    var records: seq<StreamRecord>
    /** Every PutRecord call the stream received, accepted or not. */
    var requests: seq<StreamRecord>

    constructor (name: string)
      ensures this.name == name && records == [] && requests == []
    {
      this.name := name;
      records := [];
      requests := [];
    }

    /** `svc.PutRecord`; `fault` is the service's answer, chosen by the
        environment: when it is an error the record is not appended. */
    method PutRecord(record: StreamRecord, fault: Option<ServiceError>) returns (err: Option<ServiceError>)
      modifies this
      ensures err == fault
      ensures requests == old(requests) + [record]
      ensures records == if fault.None? then old(records) + [record] else old(records)
    {
      requests := requests + [record];
      if fault.None? {
        records := records + [record];
      }
      err := fault;
    }
  }

  /** `HandleRequest`. `fault` is what PutRecord answers if it is called. */
  method HandleRequest(body: Payload, stream: KinesisStream, out: Stdout<LogLine>, fault: Option<ServiceError>)
    returns (response: Response)
    modifies stream, out
    ensures UnmarshalItem(body).Err? ==>
      && response == RestResponse(400, "failed to unmarshal request body: " + ErrorText(UnmarshalItem(body).error))
      && stream.requests == old(stream.requests)
      && stream.records == old(stream.records)
      && out.lines == old(out.lines)
    ensures UnmarshalItem(body).Ok? ==>
      var item := UnmarshalItem(body).value;
      && out.lines == old(out.lines) + [Received(item.id, item.message)]
      && stream.requests == old(stream.requests) + [Publication(item)]
      && stream.records == old(stream.records) + (if fault.None? then [Publication(item)] else [])
      && response == (if fault.None? then RestResponse(200, "success")
                      else RestResponse(500, "failed to put record to " + stream.name + " Kinesis Stream: " + fault.value))
  {
    var parsed := UnmarshalItem(body);
    if parsed.Err? {
      response := RestResponse(400, "failed to unmarshal request body: " + ErrorText(parsed.error));
      return;
    }
    var item := parsed.value;
    out.Print(Received(item.id, item.message));
    var data := Encode(item);
    var err := stream.PutRecord(StreamRecord(item.id, Parsed(data)), fault);
    if err.Some? {
      response := RestResponse(500, "failed to put record to " + stream.name + " Kinesis Stream: " + err.value);
      return;
    }
    response := RestResponse(200, "success");
  }

  /** A request whose body is an encoded item is published exactly when the
      item passes validation, and then as that very item keyed by its id. */
  lemma AcceptsExactlyValid(item: Item)
    ensures UnmarshalItem(Parsed(Encode(item))).Ok? <==> Valid(item)
    ensures Valid(item) ==> UnmarshalItem(Parsed(Encode(item))) == Ok(item)
    ensures !Valid(item) ==> UnmarshalItem(Parsed(Encode(item))) == Err(Invalid(Validate(item).value))
  {
  }

  /** An empty object, and a top-level `null`, decode to the zero Item,
      which fails the first check. */
  lemma EmptyBodyNeedsId()
    ensures UnmarshalItem(Parsed(JObject([]))) == Err(Invalid(IdRequired))
    ensures UnmarshalItem(Parsed(JNull)) == Err(Invalid(IdRequired))
    ensures ErrorText(Invalid(IdRequired)) == "id is required"
  {
  }
}
