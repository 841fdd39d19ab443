/** The event that travels through the pipeline, and Go's `encoding/json`
    on it. A JSON document is modelled by the value it parses to; the text
    grammar is not modelled. Decoding follows the rules `json.Unmarshal`
    applies when it fills the struct `Item`; encoding is `json.Marshal`. */
module Wire {
  import opened Basics
  import opened Strconv

  /** The struct `Item` that each of the three handlers declares. */
  datatype Item = Item(id: string, message: string, timestamp: Int64)

  /** Go's zero value of `Item`, which `var item Item` starts from. */
  const ZeroItem: Item := Item("", "", 0)

  /** A parsed JSON value. A number keeps its literal text, because Go reads
      the text of a number literal with ParseInt when the target is an int64.
      An object keeps its members in document order, duplicates included. */
  datatype Json =
    | JNull
    | JBool(b: bool)
    | JNumber(literal: string)
    | JString(s: string)
    | JArray(elements: seq<Json>)
    | JObject(members: seq<(string, Json)>)

  /** A payload or request body: the JSON value its text parses to, or
      `Unparsable` when the text is not JSON at all. */
  datatype Payload = Parsed(doc: Json) | Unparsable

  datatype Field = IdField | MessageField | TimestampField

  /** The errors `json.Unmarshal` reports into an Item: a `*SyntaxError` for
      text that is not JSON, and an `*UnmarshalTypeError` for a value of the
      wrong JSON type, either for one field or (`None`) for the whole Item. */
  datatype DecodeError = SyntaxError | TypeError(field: Option<Field>)

  /** The text of a decode error, as `err.Error()` shows it. Go's wording
      also quotes the offending value and offset; only the shape is kept. */
  function DecodeErrorText(e: DecodeError): string {
    match e
    case SyntaxError => "invalid character in JSON input"
    case TypeError(None) => "json: cannot unmarshal value into Go value of type main.Item"
    case TypeError(Some(f)) =>
      "json: cannot unmarshal value into Go struct field Item." + FieldName(f)
  }

  function FieldName(f: Field): string {
    match f
    case IdField => "id"
    case MessageField => "message"
    case TimestampField => "timestamp"
  }

  function Lower(c: char): char {
    if 'A' <= c <= 'Z' then (c as int + 32) as char else c
  }

  /** Key matching ignoring case, restricted to ASCII letters. */
  predicate EqualFold(a: string, b: string) {
    |a| == |b| && forall i :: 0 <= i < |a| ==> Lower(a[i]) == Lower(b[i])
  }

  /** The struct field, by its `json:"…"` tag, that an object key selects. */
  function FieldFor(key: string): Option<Field> {
    if EqualFold(key, "id") then Some(IdField)
    else if EqualFold(key, "message") then Some(MessageField)
    else if EqualFold(key, "timestamp") then Some(TimestampField)
    else None
  }

  /** Whether `json.Unmarshal` can store `value` into field `f`: `null` is
      always accepted (it leaves the field alone), a string field takes a
      string, and the int64 field takes a number literal ParseInt accepts. */
  predicate Fits(f: Field, value: Json) {
    match value
    case JNull => true
    case JString(_) => f != TimestampField
    case JNumber(lit) => f == TimestampField && ParseInt(lit).Ok?
    case _ => false
  }

  /** Storing one object member into `item`. */
  function DecodeMember(item: Item, key: string, value: Json): Result<Item, DecodeError> {
    match FieldFor(key)
    case None => Ok(item)
    case Some(f) =>
      if !Fits(f, value) then Err(TypeError(Some(f)))
      else if value.JNull? then Ok(item)
      else if f == IdField then Ok(item.(id := value.s))
      else if f == MessageField then Ok(item.(message := value.s))
      else Ok(item.(timestamp := ParseInt(value.literal).value))
  }

  /** The decoder's walk over the members: a member of the wrong type is
      skipped and only the first such error is kept, so the walk always
      reaches the end of the object. */
  function DecodeMembers(members: seq<(string, Json)>, item: Item, first: Option<DecodeError>): (Item, Option<DecodeError>)
    decreases |members|
  {
    if members == [] then (item, first)
    else
      match DecodeMember(item, members[0].0, members[0].1)
      case Ok(next) => DecodeMembers(members[1..], next, first)
      case Err(e) => DecodeMembers(members[1..], item, if first.None? then Some(e) else first)
  }

  /** `json.Unmarshal(data, &item)` into a fresh Item (no validation). A
      top-level `null` leaves the zero Item; any other non-object value is a
      type error. An object decodes exactly when every member that selects a
      field carries a value that fits it; unknown keys never matter. */
  function Decode(p: Payload): (r: Result<Item, DecodeError>)
    ensures p.Unparsable? ==> r == Err(SyntaxError)
    ensures p == Parsed(JNull) ==> r == Ok(ZeroItem)
    ensures p.Parsed? && !p.doc.JNull? && !p.doc.JObject? ==> r == Err(TypeError(None))
    ensures p.Parsed? && p.doc.JObject? ==>
      (r.Ok? <==> forall i :: 0 <= i < |p.doc.members| ==> !Misfit(p.doc.members[i]))
  {
    match p
    case Unparsable => Err(SyntaxError)
    case Parsed(JNull) => Ok(ZeroItem)
    case Parsed(JObject(members)) =>
      DecodeMembersError(members, ZeroItem, None);
      var (item, first) := DecodeMembers(members, ZeroItem, None);
      if first.Some? then Err(first.value) else Ok(item)
    case Parsed(_) => Err(TypeError(None))
  }

  /** `json.Marshal(item)`: one member per field, in declaration order.
      Decoding it gives back the same Item, field for field, whatever its
      fields hold: the codec does no validation. */
  function Encode(item: Item): (doc: Json)
    ensures doc.JObject?
    ensures Decode(Parsed(doc)) == Ok(item)
  {
    var ms := [("id", JString(item.id)),
               ("message", JString(item.message)),
               ("timestamp", JNumber(FormatInt(item.timestamp)))];
    assert FieldFor("id") == Some(IdField);
    assert FieldFor("message") == Some(MessageField);
    assert FieldFor("timestamp") == Some(TimestampField);
    var i1 := ZeroItem.(id := item.id);
    var i2 := i1.(message := item.message);
    assert DecodeMember(ZeroItem, ms[0].0, ms[0].1) == Ok(i1);
    assert DecodeMember(i1, ms[1].0, ms[1].1) == Ok(i2);
    assert DecodeMember(i2, ms[2].0, ms[2].1) == Ok(item);
    assert ms[1..][1..][1..] == [];
    assert DecodeMembers(ms[1..][1..], i2, None) == (item, None);
    assert DecodeMembers(ms[1..], i1, None) == (item, None);
    assert DecodeMembers(ms, ZeroItem, None) == (item, None);
    JObject(ms)
  }

  /** The walk reports an error exactly when some member selects a field
      its value does not fit, or an error was already pending. */
  lemma {:induction false} DecodeMembersError(members: seq<(string, Json)>, item: Item, first: Option<DecodeError>)
    ensures DecodeMembers(members, item, first).1.Some? <==>
      first.Some? || exists i :: 0 <= i < |members| && Misfit(members[i])
    decreases |members|
  {
    if members != [] {
      var m := members[0];
      var next := DecodeMember(item, m.0, m.1);
      DecodeMembersError(members[1..], if next.Ok? then next.value else item,
        if next.Err? && first.None? then Some(next.error) else first);
      assert next.Err? <==> Misfit(m);
      if exists i :: 0 <= i < |members| && Misfit(members[i]) {
        var i :| 0 <= i < |members| && Misfit(members[i]);
        if i > 0 { assert Misfit(members[1..][i - 1]); }
      }
      if exists i :: 0 <= i < |members[1..]| && Misfit(members[1..][i]) {
        var i :| 0 <= i < |members[1..]| && Misfit(members[1..][i]);
        assert Misfit(members[i + 1]);
      }
    }
  }

  /** A member whose key selects a field that its value does not fit. */
  predicate Misfit(member: (string, Json)) {
    FieldFor(member.0).Some? && !Fits(FieldFor(member.0).value, member.1)
  }
}
