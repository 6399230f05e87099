/**
 * The request, response and stored-item records of the todo handler, and
 * the library conversions between them. Decoding JSON bodies is left
 * abstract (a partial function). MarshalMap and UnmarshalMap are written
 * out, with only their failure left abstract. For json.Marshal of the list,
 * the list's framing is written out; each entry's encoding is abstract.
 */
module Records {
  import opened Wrappers

  /** Timestamps travel as their RFC 3339 text, the form time.Time marshals to. */
  type Timestamp = string

  /** The value a Go time.Time field keeps when nothing is decoded into it. */
  const ZeroTime: Timestamp := "0001-01-01T00:00:00Z"

  /** Body of a POST: the client supplies createDate itself. */
  datatype CreateTodoRequest = CreateTodoRequest(name: string, description: string, createDate: Timestamp)

  /** One entry of a GET listing; it carries no updateDate. */
  datatype ListTodoResponse = ListTodoResponse(id: string, name: string, description: string, createDate: Timestamp)

  /** Body of a PUT: the id must repeat the one in the path. */
  datatype UpdateTodoRequest = UpdateTodoRequest(id: string, name: string, description: string)

  /**
   * The attributes of one stored item besides its key "id". An item written
   * by a create has a createDate and no updateDate; an update sets updateDate,
   * and an update of an absent key leaves createDate missing.
   */
  datatype Item = Item(name: string, description: string, createDate: Option<Timestamp>, updateDate: Option<Timestamp>)

  /** One scanned item: its key and its other attributes. */
  datatype Entry = Entry(id: string, item: Item)

  /** The gateway's request event: method, path parameters and raw body. */
  datatype Request = Request(httpMethod: string, pathParameters: map<string, string>, body: string)

  /** The gateway's response: status code and body ("" where Go leaves Body unset). */
  datatype Response = Response(statusCode: int, body: string)

  /** Why an invocation returned a Go error instead of a response. */
  datatype Cause = ScanFailed | MalformedUpdateBody

  /** What one invocation hands back to the Lambda runtime. */
  datatype Outcome = Reply(response: Response) | InvocationError(cause: Cause)

  /**
   * The library conversions, fixed for the life of the process:
   *  - unmarshalCreate, unmarshalUpdate: json.Unmarshal of a request body;
   *  - marshalCreate: whether dynamodbattribute.MarshalMap succeeds on a create request;
   *  - buildUpdate: whether the expression builder accepts the update of name, description, updateDate;
   *  - unmarshalItem: whether dynamodbattribute.UnmarshalMap succeeds on a scanned item;
   *  - marshalTodo: json.Marshal of one listing entry.
   */
  datatype Codec = Codec(
    unmarshalCreate: string -> Option<CreateTodoRequest>,
    marshalCreate: CreateTodoRequest -> bool,
    unmarshalUpdate: string -> Option<UpdateTodoRequest>,
    buildUpdate: (string, string, Timestamp) -> bool,
    unmarshalItem: (string, Item) -> bool,
    marshalTodo: ListTodoResponse -> Option<string>)

  /**
   * How one store call ends. It completes, or it returns an error. A call
   * that returns an error may still have taken effect: a write the store
   * applied but answered after the caller stopped waiting (scan, put and delete
   * carry a 3-second deadline; the update call carries none), or whose answer was lost.
   */
  datatype StoreCall = Completes | Fails(applied: bool) {

    /** Whether the store carried the operation out. */
    predicate Writes() {
      Completes? || applied
    }
  }

  /**
   * What one invocation learns from outside: the id uuid.NewString draws,
   * the time.Now reading formatted as RFC 3339, and how the one store call
   * it makes ends.
   */
  datatype Env = Env(newId: string, now: Timestamp, store: StoreCall)

  /** The listing entry UnmarshalMap fills from a stored item (an absent createDate stays the zero time). */
  function UnmarshalItem(id: string, item: Item): (todo: ListTodoResponse)
    ensures todo.id == id && todo.name == item.name && todo.description == item.description
    ensures item.createDate.Some? ==> todo.createDate == item.createDate.value
    ensures item.createDate.None? ==> todo.createDate == ZeroTime
  {
    ListTodoResponse(id, item.name, item.description, item.createDate.GetOr(ZeroTime))
  }

  /** The item MarshalMap builds from a create request; reading it back gives the request's fields under any id. */
  function MarshalItem(req: CreateTodoRequest): (item: Item)
    ensures item.updateDate == None
    ensures forall id :: UnmarshalItem(id, item) == ListTodoResponse(id, req.name, req.description, req.createDate)
  {
    Item(req.name, req.description, Some(req.createDate), None)
  }

  /**
   * The items of a scan, decoded in scan order; None as soon as any item
   * does not decode.
   */
  function DecodeAll(scan: seq<Entry>, codec: Codec): (r: Option<seq<ListTodoResponse>>)
    ensures r.Some? <==> forall i | 0 <= i < |scan| :: codec.unmarshalItem(scan[i].id, scan[i].item)
    ensures r.Some? ==> |r.value| == |scan|
    ensures r.Some? ==> forall i | 0 <= i < |scan| :: r.value[i] == UnmarshalItem(scan[i].id, scan[i].item)
  {
    if forall i | 0 <= i < |scan| :: codec.unmarshalItem(scan[i].id, scan[i].item)
    then Some(seq(|scan|, i requires 0 <= i < |scan| => UnmarshalItem(scan[i].id, scan[i].item)))
    else None
  }

  /** json.Marshal of each entry in turn, failing if any entry fails. */
  function EncodeAll(todos: seq<ListTodoResponse>, enc: ListTodoResponse -> Option<string>): (r: Option<seq<string>>)
    ensures r.Some? <==> forall i | 0 <= i < |todos| :: enc(todos[i]).Some?
    ensures r.Some? ==> |r.value| == |todos|
    ensures r.Some? ==> forall i | 0 <= i < |todos| :: Some(r.value[i]) == enc(todos[i])
  {
    if todos == [] then Some([])
    else match enc(todos[0])
      case None => None
      case Some(e) =>
        match EncodeAll(todos[1..], enc)
        case None => None
        case Some(rest) => Some([e] + rest)
  }

  /**
   * Encoded elements separated by commas. The length clause is a sanity
   * bound (exactly one comma between neighbours); JoinAppend gives the content.
   */
  function Join(elems: seq<string>): (text: string)
    ensures |elems| == 1 ==> text == elems[0]
    ensures |elems| > 0 ==> |text| == TotalLength(elems) + |elems| - 1
  {
    if |elems| == 0 then ""
    else if |elems| == 1 then elems[0]
    else elems[0] + "," + Join(elems[1..])
  }

  /** The summed length of some strings. */
  function TotalLength(elems: seq<string>): nat {
    if elems == [] then 0 else |elems[0]| + TotalLength(elems[1..])
  }

  /** Appending an element appends a comma and that element. */
  lemma {:induction false} JoinAppend(elems: seq<string>, e: string)
    requires |elems| > 0
    ensures Join(elems + [e]) == Join(elems) + "," + e
  {
    if |elems| > 1 {
      assert (elems + [e])[1..] == elems[1..] + [e];
      JoinAppend(elems[1..], e);
    } else {
      assert (elems + [e])[1..] == [e];
    }
  }

  /**
   * json.Marshal of the listing slice. The slice is nil until something is
   * appended, and a nil slice marshals to "null"; otherwise the result is a
   * JSON array of the encoded entries.
   */
  function MarshalList(todos: seq<ListTodoResponse>, enc: ListTodoResponse -> Option<string>): (r: Option<string>)
    ensures r.Some? <==> forall i | 0 <= i < |todos| :: enc(todos[i]).Some?
    ensures r == Some("null") <==> |todos| == 0
    // The bracket clause is a sanity bound; the clause after it states the content.
    ensures r.Some? && |todos| > 0 ==> |r.value| >= 2 && r.value[0] == '[' && r.value[|r.value| - 1] == ']'
    ensures r.Some? && |todos| > 0 ==>
      r.value == "[" + Join(seq(|todos|, i requires 0 <= i < |todos| && enc(todos[i]).Some? => enc(todos[i]).value)) + "]"
  {
    if |todos| == 0 then Some("null")
    else match EncodeAll(todos, enc)
      case None => None
      case Some(elems) =>
        var text := "[" + Join(elems) + "]";
        assert text[0] == '[';
        assert elems == seq(|todos|, i requires 0 <= i < |todos| && enc(todos[i]).Some? => enc(todos[i]).value);
        Some(text)
  }
}
