/**
 * The Lambda handler of the todo API: the dispatch table built at process
 * start, the library codec, and the todo table in the key-value store,
 * which the actions change one store call at a time.
 */
module Lambda {
  import opened Wrappers
  import opened Http
  import opened Records
  import opened Effects

  /** The functions the dispatch table can hold. */
  datatype EndpointAction = Save | List | Update | Remove

  class TodoApi {
    /** HTTP method -> action, filled once by the constructor and never changed. */
    const actions: map<string, EndpointAction>
    /** The library conversions the actions use. */
    const codec: Codec
    /** The store's todo table: key "id" -> the item's other attributes. */
    var table: map<string, Item>

    /** The dispatch table holds exactly the four registrations of init. */
    predicate Valid() {
      && actions.Keys == {MethodPost, MethodGet, MethodPut, MethodDelete}
      && actions[MethodPost] == Save
      && actions[MethodGet] == List
      && actions[MethodPut] == Update
      && actions[MethodDelete] == Remove
    }

    /** init: register the four actions; the table is whatever the store already holds. */
    constructor (codec: Codec, table: map<string, Item>)
      ensures Valid()
      ensures this.codec == codec
      ensures this.table == table
    {
      var registered: map<string, EndpointAction> := map[];
      registered := registered[MethodPost := Save];
      registered := registered[MethodGet := List];
      registered := registered[MethodPut := Update];
      registered := registered[MethodDelete := Remove];
      actions := registered;
      this.codec := codec;
      this.table := table;
    }

    /** The action registered for an HTTP method; methods are matched exactly, case included. */
    function Route(httpMethod: string): (a: Option<EndpointAction>)
      requires Valid()
      ensures a == Some(Save) <==> httpMethod == MethodPost
      ensures a == Some(List) <==> httpMethod == MethodGet
      ensures a == Some(Update) <==> httpMethod == MethodPut
      ensures a == Some(Remove) <==> httpMethod == MethodDelete
      ensures a == None <==> httpMethod !in {MethodPost, MethodGet, MethodPut, MethodDelete}
    {
      if httpMethod in actions then Some(actions[httpMethod]) else None
    }

    // ------------------------------------------------------------------
    // Store calls: each completes as one atomic operation, or returns an
    // error having taken effect or not.
    // ------------------------------------------------------------------

    /** Scan: every item once, in an order the store chooses. */
    method Scan(call: StoreCall) returns (result: Option<seq<Entry>>)
      ensures ScanAnswers(result, table, call)
    {
      if call.Fails? {
        return None;
      }
      var pending := table.Keys;
      var items: seq<Entry> := [];
      while pending != {}
        invariant pending <= table.Keys
        invariant forall i | 0 <= i < |items| :: items[i].id in table && table[items[i].id] == items[i].item
        invariant forall i | 0 <= i < |items| :: items[i].id !in pending
        invariant forall i, j | 0 <= i < j < |items| :: items[i].id != items[j].id
        invariant forall k | k in table && k !in pending :: exists i :: 0 <= i < |items| && items[i].id == k
        decreases pending
      {
        var k :| k in pending;
        ghost var before := items;
        items := items + [Entry(k, table[k])];
        pending := pending - {k};
        forall k' | k' in table && k' !in pending ensures exists i :: 0 <= i < |items| && items[i].id == k' {
          if k' == k {
            assert items[|before|].id == k';
          } else {
            var i :| 0 <= i < |before| && before[i].id == k';
            assert items[i].id == k';
          }
        }
      }
      return Some(items);
    }

    /** PutItem: store item under id, replacing any item already there. */
    method PutItem(id: string, item: Item, call: StoreCall) returns (done: bool)
      modifies this
      ensures done == call.Completes?
      ensures table == if call.Writes() then old(table)[id := item] else old(table)
    {
      done := call.Completes?;
      if call.Writes() {
        table := table[id := item];
      }
    }

    /** UpdateItem: set name, description and updateDate on key id. */
    method UpdateItem(id: string, name: string, description: string, now: Timestamp, call: StoreCall) returns (done: bool)
      modifies this
      ensures done == call.Completes?
      ensures table == if call.Writes() then SetAttributes(old(table), id, name, description, now) else old(table)
    {
      done := call.Completes?;
      if call.Writes() {
        var item := if id in table then table[id] else Item("", "", None, None);
        item := item.(name := name, description := description, updateDate := Some(now));
        table := table[id := item];
      }
    }

    /** DeleteItem: remove key id; an absent key is not an error. */
    method DeleteItem(id: string, call: StoreCall) returns (done: bool)
      modifies this
      ensures done == call.Completes?
      ensures table == if call.Writes() then old(table) - {id} else old(table)
    {
      done := call.Completes?;
      if call.Writes() {
        table := table - {id};
      }
    }

    // ------------------------------------------------------------------
    // Endpoint actions
    // ------------------------------------------------------------------

    /**
     * getTodos: scan, decode every item in scan order, marshal the list.
     * The ghost result is what the scan answered.
     */
    method GetTodos(env: Env) returns (out: Outcome, ghost scanned: Option<seq<Entry>>)
      ensures ScanAnswers(scanned, table, env.store)
      ensures out == ListEffect(scanned, codec)
      ensures env.store.Fails? ==> out == InvocationError(ScanFailed)
      ensures env.store.Completes? && (exists k | k in table :: !codec.unmarshalItem(k, table[k])) ==>
        out == Reply(Response(StatusInternalServerError, "Internal Server Error"))
      ensures env.store.Completes? && table == map[] ==> out == Reply(Response(StatusOK, "null"))
    {
      var result := Scan(env.store);
      scanned := result;
      ListingOfTable(scanned, table, codec, env.store);
      if result.None? {
        return InvocationError(ScanFailed), scanned;
      }
      var items := result.value;
      var todos: seq<ListTodoResponse> := [];
      var i := 0;
      while i < |items|
        invariant 0 <= i <= |items|
        invariant |todos| == i
        invariant forall j | 0 <= j < i :: codec.unmarshalItem(items[j].id, items[j].item)
        invariant forall j | 0 <= j < i :: todos[j] == UnmarshalItem(items[j].id, items[j].item)
      {
        var entry := items[i];
        if !codec.unmarshalItem(entry.id, entry.item) {
          return HttpError(StatusInternalServerError), scanned;
        }
        todos := todos + [UnmarshalItem(entry.id, entry.item)];
        i := i + 1;
      }
      assert todos == seq(|items|, j requires 0 <= j < |items| => UnmarshalItem(items[j].id, items[j].item));
      var body := MarshalList(todos, codec.marshalTodo);
      if body.None? {
        return HttpError(StatusInternalServerError), scanned;
      }
      out := Reply(Response(StatusOK, body.value));
    }

    /** saveTodo: decode the body, marshal it to an item, add the new id, put it. */
    method SaveTodo(event: Request, env: Env) returns (out: Outcome)
      modifies this
      ensures Step(out, table) == SaveEffect(old(table), event, codec, env)
    {
      var decoded := codec.unmarshalCreate(event.body);
      if decoded.None? {
        return HttpError(StatusBadRequest);
      }
      var req := decoded.value;
      if !codec.marshalCreate(req) {
        return HttpError(StatusInternalServerError);
      }
      var av := MarshalItem(req);
      var id := env.newId;
      var done := PutItem(id, av, env.store);
      if !done {
        return HttpError(StatusInternalServerError);
      }
      out := Created;
    }

    /** updateTodo: path id present, body decodes, ids agree, then one attribute update. */
    method UpdateTodo(event: Request, env: Env) returns (out: Outcome)
      modifies this
      ensures Step(out, table) == UpdateEffect(old(table), event, codec, env)
    {
      if "id" !in event.pathParameters {
        return HttpError(StatusBadRequest);
      }
      var id := event.pathParameters["id"];
      var decoded := codec.unmarshalUpdate(event.body);
      if decoded.None? {
        return InvocationError(MalformedUpdateBody);
      }
      var req := decoded.value;
      if id != req.id {
        return HttpError(StatusBadRequest);
      }
      if !codec.buildUpdate(req.name, req.description, env.now) {
        return HttpError(StatusInternalServerError);
      }
      var done := UpdateItem(id, req.name, req.description, env.now, env.store);
      if !done {
        return HttpError(StatusInternalServerError);
      }
      out := Done;
    }

    /** removeTodo: path id present, then one delete. */
    method RemoveTodo(event: Request, env: Env) returns (out: Outcome)
      modifies this
      ensures Step(out, table) == RemoveEffect(old(table), event, env)
    {
      if "id" !in event.pathParameters {
        return HttpError(StatusBadRequest);
      }
      var done := DeleteItem(event.pathParameters["id"], env.store);
      if !done {
        return HttpError(StatusInternalServerError);
      }
      out := Done;
    }

    /**
     * handler: run the action registered for the request's method; an
     * unregistered method answers 500 without touching the store. A rejected
     * request never changes the table, and a failed invocation changes it
     * only through a store call that erred after taking effect.
     */
    method Handler(event: Request, env: Env) returns (out: Outcome)
      requires Valid()
      modifies this
      ensures Route(event.httpMethod) == None ==>
        out == Reply(Response(StatusInternalServerError, "Internal Server Error")) && table == old(table)
      ensures Route(event.httpMethod) == Some(Save) ==> Step(out, table) == SaveEffect(old(table), event, codec, env)
      ensures Route(event.httpMethod) == Some(List) ==>
        table == old(table) && exists s :: ScanAnswers(s, table, env.store) && out == ListEffect(s, codec)
      ensures Route(event.httpMethod) == Some(Update) ==> Step(out, table) == UpdateEffect(old(table), event, codec, env)
      ensures Route(event.httpMethod) == Some(Remove) ==> Step(out, table) == RemoveEffect(old(table), event, env)
      ensures out.Reply? && out.response.statusCode == StatusBadRequest ==> table == old(table)
      ensures !Succeeded(out) && env.store != Fails(true) ==> table == old(table)
    {
      var action := Route(event.httpMethod);
      match action
      case None =>
        out := HttpError(StatusInternalServerError);
      case Some(Save) =>
        out := SaveTodo(event, env);
      case Some(List) =>
        ghost var scanned;
        out, scanned := GetTodos(env);
        assert ScanAnswers(scanned, table, env.store) && out == ListEffect(scanned, codec);
      case Some(Update) =>
        out := UpdateTodo(event, env);
      case Some(Remove) =>
        out := RemoveTodo(event, env);
    }
  }
}
