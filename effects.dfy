/**
 * What each endpoint action does, as a function of the table before the
 * call, the request, the library codec and the invocation's oracles: the
 * outcome it returns and the table it leaves. The methods of
 * Lambda.TodoApi are proved to behave exactly so; the lemmas here relate
 * the actions to one another.
 */
module Effects {
  import opened Wrappers
  import opened Http
  import opened Records

  /** The outcome of one action and the table it leaves behind. */
  datatype Step = Step(out: Outcome, table: map<string, Item>)

  /** httpError: a response with the given code and its reason phrase, never a Go error. */
  function HttpError(statusCode: int): (r: Outcome)
    ensures r.Reply? && r.response.statusCode == statusCode
    ensures r.response.body == StatusText(statusCode)
  {
    Reply(Response(statusCode, StatusText(statusCode)))
  }

  /** The response of a successful create: 201 and no body. */
  const Created: Outcome := Reply(Response(StatusCreated, ""))

  /** The response of a successful update or delete: 200 and no body. */
  const Done: Outcome := Reply(Response(StatusOK, ""))

  /** A 2xx response. */
  predicate Succeeded(out: Outcome) {
    out.Reply? && 200 <= out.response.statusCode < 300
  }

  /**
   * s is what a scan of table t may yield: every item of t exactly once,
   * with its stored attributes, in an order the store chooses.
   */
  ghost predicate IsScanOf(s: seq<Entry>, t: map<string, Item>) {
    && (forall i | 0 <= i < |s| :: s[i].id in t && t[s[i].id] == s[i].item)
    && (forall i, j | 0 <= i < j < |s| :: s[i].id != s[j].id)
    && (forall k | k in t :: exists i :: 0 <= i < |s| && s[i].id == k)
  }

  /** The answer of a scan call: nothing when the call fails, a scan of t when it completes. */
  ghost predicate ScanAnswers(scan: Option<seq<Entry>>, t: map<string, Item>, call: StoreCall) {
    scan.Some? == call.Completes? && (scan.Some? ==> IsScanOf(scan.value, t))
  }

  /**
   * UpdateItem setting name, description and updateDate on key id. On an
   * absent key it creates the item (the store's upsert), with no createDate.
   */
  function SetAttributes(t: map<string, Item>, id: string, name: string, description: string, now: Timestamp): (r: map<string, Item>)
    ensures r.Keys == t.Keys + {id}
    ensures r[id].name == name && r[id].description == description && r[id].updateDate == Some(now)
    ensures r[id].createDate == (if id in t then t[id].createDate else None)
    ensures forall k | k in t && k != id :: r[k] == t[k]
  {
    var base := if id in t then t[id] else Item("", "", None, None);
    t[id := base.(name := name, description := description, updateDate := Some(now))]
  }

  /** getTodos, given what its scan call answered. */
  function ListEffect(scan: Option<seq<Entry>>, codec: Codec): (r: Outcome)
    ensures scan.None? ==> r == InvocationError(ScanFailed)
    ensures r.InvocationError? <==> scan.None?
    ensures scan.Some? && DecodeAll(scan.value, codec).None? ==> r == HttpError(StatusInternalServerError)
    ensures
      && scan.Some? && DecodeAll(scan.value, codec).Some?
      && MarshalList(DecodeAll(scan.value, codec).value, codec.marshalTodo).None?
      ==> r == HttpError(StatusInternalServerError)
    ensures
      && scan.Some? && DecodeAll(scan.value, codec).Some?
      && MarshalList(DecodeAll(scan.value, codec).value, codec.marshalTodo).Some?
      ==> r == Reply(Response(StatusOK, MarshalList(DecodeAll(scan.value, codec).value, codec.marshalTodo).value))
    ensures scan == Some([]) ==> r == Reply(Response(StatusOK, "null"))
    ensures r.InvocationError? || r.response.statusCode == StatusOK || r == HttpError(StatusInternalServerError)
    ensures Succeeded(r) ==>
      && scan.Some? && DecodeAll(scan.value, codec).Some?
      && r.response.statusCode == StatusOK
      && Some(r.response.body) == MarshalList(DecodeAll(scan.value, codec).value, codec.marshalTodo)
      && (r.response.body == "null" <==> scan.value == [])
  {
    match scan
    case None => InvocationError(ScanFailed)
    case Some(items) =>
      match DecodeAll(items, codec)
      case None => HttpError(StatusInternalServerError)
      case Some(todos) =>
        match MarshalList(todos, codec.marshalTodo)
        case None => HttpError(StatusInternalServerError)
        case Some(body) => Reply(Response(StatusOK, body))
  }

  /** A create reaches the store once its body decodes and marshals. */
  predicate SaveReachesStore(event: Request, codec: Codec) {
    codec.unmarshalCreate(event.body).Some? && codec.marshalCreate(codec.unmarshalCreate(event.body).value)
  }

  /** saveTodo: decode the body, store it under a new id, answer 201. */
  function SaveEffect(t: map<string, Item>, event: Request, codec: Codec, env: Env): (r: Step)
    ensures codec.unmarshalCreate(event.body).None? ==> r == Step(HttpError(StatusBadRequest), t)
    ensures r.out.Reply?
    ensures codec.unmarshalCreate(event.body).Some? && !codec.marshalCreate(codec.unmarshalCreate(event.body).value) ==>
      r == Step(HttpError(StatusInternalServerError), t)
    ensures SaveReachesStore(event, codec) && env.store.Fails? ==> r.out == HttpError(StatusInternalServerError)
    ensures r.out == Created <==> SaveReachesStore(event, codec) && env.store.Completes?
    ensures r.out != Created ==> !Succeeded(r.out)
    ensures !(SaveReachesStore(event, codec) && env.store.Writes()) ==> r.table == t
    ensures SaveReachesStore(event, codec) && env.store.Writes() ==>
      && r.table.Keys == t.Keys + {env.newId}
      && r.table[env.newId] == MarshalItem(codec.unmarshalCreate(event.body).value)
      && (forall k | k in t && k != env.newId :: r.table[k] == t[k])
  {
    match codec.unmarshalCreate(event.body)
    case None => Step(HttpError(StatusBadRequest), t)
    case Some(req) =>
      if !codec.marshalCreate(req) then Step(HttpError(StatusInternalServerError), t)
      else
        var written := if env.store.Writes() then t[env.newId := MarshalItem(req)] else t;
        Step(if env.store.Completes? then Created else HttpError(StatusInternalServerError), written)
  }

  /** A create under an id not yet stored adds exactly one item to the table. */
  lemma FreshSaveAddsOne(t: map<string, Item>, event: Request, codec: Codec, env: Env)
    requires SaveEffect(t, event, codec, env).out == Created && env.newId !in t
    ensures |SaveEffect(t, event, codec, env).table| == |t| + 1
  {
    assert SaveEffect(t, event, codec, env).table == t[env.newId := MarshalItem(codec.unmarshalCreate(event.body).value)];
  }

  /** An update reaches the store once the path id is present, the body decodes, the ids agree and the expression builds. */
  predicate UpdateReachesStore(event: Request, codec: Codec, now: Timestamp) {
    && "id" in event.pathParameters && codec.unmarshalUpdate(event.body).Some?
    && codec.unmarshalUpdate(event.body).value.id == event.pathParameters["id"]
    && codec.buildUpdate(codec.unmarshalUpdate(event.body).value.name, codec.unmarshalUpdate(event.body).value.description, now)
  }

  /** updateTodo: check the path id and the body, then set three attributes on that key. */
  function UpdateEffect(t: map<string, Item>, event: Request, codec: Codec, env: Env): (r: Step)
    ensures "id" !in event.pathParameters ==> r == Step(HttpError(StatusBadRequest), t)
    ensures "id" in event.pathParameters && codec.unmarshalUpdate(event.body).None? ==>
      r == Step(InvocationError(MalformedUpdateBody), t)
    ensures
      && "id" in event.pathParameters && codec.unmarshalUpdate(event.body).Some?
      && codec.unmarshalUpdate(event.body).value.id != event.pathParameters["id"]
      ==> r == Step(HttpError(StatusBadRequest), t)
    ensures
      && "id" in event.pathParameters && codec.unmarshalUpdate(event.body).Some?
      && codec.unmarshalUpdate(event.body).value.id == event.pathParameters["id"]
      && !UpdateReachesStore(event, codec, env.now)
      ==> r == Step(HttpError(StatusInternalServerError), t)
    ensures UpdateReachesStore(event, codec, env.now) && env.store.Fails? ==> r.out == HttpError(StatusInternalServerError)
    ensures r.out == Done <==> UpdateReachesStore(event, codec, env.now) && env.store.Completes?
    ensures r.out != Done ==> !Succeeded(r.out)
    ensures !(UpdateReachesStore(event, codec, env.now) && env.store.Writes()) ==> r.table == t
    ensures UpdateReachesStore(event, codec, env.now) && env.store.Writes() ==>
      var id, req := event.pathParameters["id"], codec.unmarshalUpdate(event.body).value;
      && r.table.Keys == t.Keys + {id}
      && r.table[id] == Item(req.name, req.description, if id in t then t[id].createDate else None, Some(env.now))
      && (forall k | k in t && k != id :: r.table[k] == t[k])
  {
    if "id" !in event.pathParameters then Step(HttpError(StatusBadRequest), t)
    else
      var id := event.pathParameters["id"];
      match codec.unmarshalUpdate(event.body)
      case None => Step(InvocationError(MalformedUpdateBody), t)
      case Some(req) =>
        if id != req.id then Step(HttpError(StatusBadRequest), t)
        else if !codec.buildUpdate(req.name, req.description, env.now) then Step(HttpError(StatusInternalServerError), t)
        else
          var written := if env.store.Writes() then SetAttributes(t, id, req.name, req.description, env.now) else t;
          Step(if env.store.Completes? then Done else HttpError(StatusInternalServerError), written)
  }

  /** removeTodo: check the path id, then delete that key whether or not it is stored. */
  function RemoveEffect(t: map<string, Item>, event: Request, env: Env): (r: Step)
    ensures "id" !in event.pathParameters ==> r == Step(HttpError(StatusBadRequest), t)
    ensures r.out.Reply?
    ensures "id" in event.pathParameters && env.store.Fails? ==> r.out == HttpError(StatusInternalServerError)
    ensures r.out == Done <==> "id" in event.pathParameters && env.store.Completes?
    ensures r.out != Done ==> !Succeeded(r.out)
    ensures !("id" in event.pathParameters && env.store.Writes()) ==> r.table == t
    ensures "id" in event.pathParameters && env.store.Writes() ==>
      && r.table.Keys == t.Keys - {event.pathParameters["id"]}
      && (forall k | k in r.table :: r.table[k] == t[k])
  {
    if "id" !in event.pathParameters then Step(HttpError(StatusBadRequest), t)
    else
      var written := if env.store.Writes() then t - {event.pathParameters["id"]} else t;
      Step(if env.store.Completes? then Done else HttpError(StatusInternalServerError), written)
  }

  /**
   * A store call that errs after the store applied it: the client is told
   * 500, yet the table is the one a completed call leaves.
   */
  lemma LateFailureStillWrites(t: map<string, Item>, event: Request, codec: Codec, env: Env)
    requires env.store == Fails(true)
    ensures !Succeeded(SaveEffect(t, event, codec, env).out)
    ensures SaveEffect(t, event, codec, env).table == SaveEffect(t, event, codec, env.(store := Completes)).table
    ensures !Succeeded(UpdateEffect(t, event, codec, env).out)
    ensures UpdateEffect(t, event, codec, env).table == UpdateEffect(t, event, codec, env.(store := Completes)).table
    ensures !Succeeded(RemoveEffect(t, event, env).out)
    ensures RemoveEffect(t, event, env).table == RemoveEffect(t, event, env.(store := Completes)).table
  {
  }

  // ---------------------------------------------------------------------
  // Properties relating the actions
  // ---------------------------------------------------------------------

  /** A scan of the empty table is empty, so listing it answers 200 with the body "null". */
  lemma EmptyTableListsNull(s: seq<Entry>, codec: Codec)
    requires IsScanOf(s, map[])
    ensures ListEffect(Some(s), codec) == Reply(Response(StatusOK, "null"))
  {
    ScanSize(s, map[]);
  }

  /** One stored item that does not decode makes every listing of the table answer 500. */
  lemma UndecodableItemFailsListing(s: seq<Entry>, t: map<string, Item>, codec: Codec, k: string)
    requires IsScanOf(s, t) && k in t && !codec.unmarshalItem(k, t[k])
    ensures ListEffect(Some(s), codec) == HttpError(StatusInternalServerError)
  {
    var i :| 0 <= i < |s| && s[i].id == k;
    assert !codec.unmarshalItem(s[i].id, s[i].item);
  }

  /**
   * Listing a table, whatever order the scan took: a failed scan is an
   * invocation error, one undecodable item gives 500, an empty table 200 "null".
   */
  lemma ListingOfTable(scan: Option<seq<Entry>>, t: map<string, Item>, codec: Codec, call: StoreCall)
    requires ScanAnswers(scan, t, call)
    ensures call.Fails? ==> ListEffect(scan, codec) == InvocationError(ScanFailed)
    ensures call.Completes? && (exists k | k in t :: !codec.unmarshalItem(k, t[k])) ==>
      ListEffect(scan, codec) == Reply(Response(StatusInternalServerError, "Internal Server Error"))
    ensures call.Completes? && t == map[] ==> ListEffect(scan, codec) == Reply(Response(StatusOK, "null"))
  {
    if call.Completes? {
      if exists k | k in t :: !codec.unmarshalItem(k, t[k]) {
        var k :| k in t && !codec.unmarshalItem(k, t[k]);
        UndecodableItemFailsListing(scan.value, t, codec, k);
      }
      if t == map[] {
        EmptyTableListsNull(scan.value, codec);
      }
    }
  }

  /** A scan holds exactly as many items as the table. */
  lemma ScanSize(s: seq<Entry>, t: map<string, Item>)
    requires IsScanOf(s, t)
    ensures |s| == |t|
  {
    var ids := set i | 0 <= i < |s| :: s[i].id;
    assert ids == t.Keys by {
      forall k | k in t ensures k in ids {
        var i :| 0 <= i < |s| && s[i].id == k;
      }
    }
    DistinctIdsCount(s);
  }

  /** Distinct ids in a sequence of entries: the set of ids is as large as the sequence. */
  lemma {:induction false} DistinctIdsCount(s: seq<Entry>)
    requires forall i, j | 0 <= i < j < |s| :: s[i].id != s[j].id
    ensures |set i | 0 <= i < |s| :: s[i].id| == |s|
  {
    if s != [] {
      var rest := s[1..];
      DistinctIdsCount(rest);
      var ids := set i | 0 <= i < |s| :: s[i].id;
      var restIds := set i | 0 <= i < |rest| :: rest[i].id;
      assert ids == restIds + {s[0].id} by {
        forall k | k in ids ensures k in restIds + {s[0].id} {
          var i :| 0 <= i < |s| && s[i].id == k;
          if i > 0 { assert rest[i - 1].id == k; }
        }
        forall k | k in restIds ensures k in ids {
          var i :| 0 <= i < |rest| && rest[i].id == k;
          assert s[i + 1].id == k;
        }
      }
      assert s[0].id !in restIds by {
        forall i | 0 <= i < |rest| ensures rest[i].id != s[0].id {
          assert rest[i] == s[i + 1];
        }
      }
    }
  }

  /** The listing entry of key k in a successfully decoded scan: exactly one, read from the stored item. */
  lemma ListedOnce(s: seq<Entry>, t: map<string, Item>, codec: Codec, k: string)
    requires IsScanOf(s, t) && DecodeAll(s, codec).Some? && k in t
    ensures UnmarshalItem(k, t[k]) in DecodeAll(s, codec).value
    ensures forall i, j | 0 <= i < j < |s| :: DecodeAll(s, codec).value[i].id != DecodeAll(s, codec).value[j].id
  {
    var i :| 0 <= i < |s| && s[i].id == k;
    assert DecodeAll(s, codec).value[i] == UnmarshalItem(k, t[k]);
  }

  /**
   * After a successful create, every listing that decodes shows the new
   * todo exactly once, with the name, description and createDate of the
   * request body, under the generated id; every other entry was stored before.
   */
  lemma SavedTodoIsListed(t: map<string, Item>, event: Request, codec: Codec, env: Env, s: seq<Entry>)
    requires SaveEffect(t, event, codec, env).out == Created
    requires IsScanOf(s, SaveEffect(t, event, codec, env).table) && DecodeAll(s, codec).Some?
    ensures
      var req := codec.unmarshalCreate(event.body).value;
      ListTodoResponse(env.newId, req.name, req.description, req.createDate) in DecodeAll(s, codec).value
    ensures forall i | 0 <= i < |s| && DecodeAll(s, codec).value[i].id == env.newId ::
      var req := codec.unmarshalCreate(event.body).value;
      DecodeAll(s, codec).value[i] == ListTodoResponse(env.newId, req.name, req.description, req.createDate)
    ensures forall i, j | 0 <= i < j < |s| :: DecodeAll(s, codec).value[i].id != DecodeAll(s, codec).value[j].id
    ensures forall i | 0 <= i < |s| && DecodeAll(s, codec).value[i].id != env.newId ::
      DecodeAll(s, codec).value[i].id in t
  {
    var t' := SaveEffect(t, event, codec, env).table;
    ListedOnce(s, t', codec, env.newId);
  }

  /**
   * After a successful update, every listing that decodes shows the todo
   * keyed by the path id with the body's name and description, and the
   * createDate it had before (the zero time if the key was new).
   */
  lemma UpdatedTodoIsListed(t: map<string, Item>, event: Request, codec: Codec, env: Env, s: seq<Entry>)
    requires UpdateEffect(t, event, codec, env).out == Done
    requires IsScanOf(s, UpdateEffect(t, event, codec, env).table) && DecodeAll(s, codec).Some?
    ensures
      var id, req := event.pathParameters["id"], codec.unmarshalUpdate(event.body).value;
      var created := if id in t && t[id].createDate.Some? then t[id].createDate.value else ZeroTime;
      ListTodoResponse(id, req.name, req.description, created) in DecodeAll(s, codec).value
  {
    ListedOnce(s, UpdateEffect(t, event, codec, env).table, codec, event.pathParameters["id"]);
  }

  /** After a successful delete, no listing shows the deleted id. */
  lemma RemovedTodoIsNotListed(t: map<string, Item>, event: Request, env: Env, s: seq<Entry>, codec: Codec)
    requires RemoveEffect(t, event, env).out == Done
    requires IsScanOf(s, RemoveEffect(t, event, env).table) && DecodeAll(s, codec).Some?
    ensures forall todo | todo in DecodeAll(s, codec).value :: todo.id != event.pathParameters["id"]
  {
    var todos := DecodeAll(s, codec).value;
    forall todo | todo in todos ensures todo.id != event.pathParameters["id"] {
      var i :| 0 <= i < |todos| && todos[i] == todo;
      assert s[i].id in RemoveEffect(t, event, env).table;
    }
  }

  /** Deleting the same id twice answers 200 both times and leaves the table as one delete did. */
  lemma RemoveIsIdempotent(t: map<string, Item>, event: Request, env1: Env, env2: Env)
    requires "id" in event.pathParameters && env1.store == Completes && env2.store == Completes
    ensures RemoveEffect(t, event, env1).out == Done
    ensures RemoveEffect(RemoveEffect(t, event, env1).table, event, env2) ==
      Step(Done, RemoveEffect(t, event, env1).table)
  {
  }

  /** An update whose body names another id than the path answers 400 and leaves the table alone. */
  lemma MismatchedUpdateIsRejected(t: map<string, Item>, event: Request, codec: Codec, env: Env)
    requires "id" in event.pathParameters && codec.unmarshalUpdate(event.body).Some?
    requires codec.unmarshalUpdate(event.body).value.id != event.pathParameters["id"]
    ensures UpdateEffect(t, event, codec, env) == Step(Reply(Response(StatusBadRequest, "Bad Request")), t)
  {
  }

  /**
   * A listing that decodes, of a table holding one item, is exactly that
   * item's entry, and its body is a one-element JSON array.
   */
  lemma SingleItemListing(s: seq<Entry>, id: string, item: Item, codec: Codec)
    requires IsScanOf(s, map[id := item]) && DecodeAll(s, codec).Some?
    ensures DecodeAll(s, codec).value == [UnmarshalItem(id, item)]
    ensures ListEffect(Some(s), codec) ==
      match codec.marshalTodo(UnmarshalItem(id, item))
      case Some(e) => Reply(Response(StatusOK, "[" + e + "]"))
      case None => HttpError(StatusInternalServerError)
  {
    ScanSize(s, map[id := item]);
    assert s[0].id in map[id := item];
    var todos := [UnmarshalItem(id, item)];
    assert DecodeAll(s, codec).value == todos;
    match codec.marshalTodo(UnmarshalItem(id, item))
    case Some(e) =>
      assert todos[1..] == [] && [e] + [] == [e];
      assert EncodeAll(todos[1..], codec.marshalTodo) == Some([]);
      assert EncodeAll(todos, codec.marshalTodo) == Some([e]);
    case None =>
  }

  /**
   * The life of one todo, starting from an empty table: create it, list it,
   * rename it, list it again, delete it, list the empty table. Each call
   * succeeds, each listing that decodes shows exactly what the calls before
   * it wrote, and the last listing has the body "null".
   */
  lemma Lifecycle(codec: Codec, post: Request, put: Request, del: Request, env: Env)
    requires env.store == Completes
    requires codec.unmarshalCreate(post.body).Some? && codec.marshalCreate(codec.unmarshalCreate(post.body).value)
    requires put.pathParameters == map["id" := env.newId] && codec.unmarshalUpdate(put.body).Some?
    requires codec.unmarshalUpdate(put.body).value.id == env.newId
    requires codec.buildUpdate(codec.unmarshalUpdate(put.body).value.name, codec.unmarshalUpdate(put.body).value.description, env.now)
    requires del.pathParameters == map["id" := env.newId]
    ensures
      var req, upd := codec.unmarshalCreate(post.body).value, codec.unmarshalUpdate(put.body).value;
      var created := SaveEffect(map[], post, codec, env);
      var updated := UpdateEffect(created.table, put, codec, env);
      var removed := RemoveEffect(updated.table, del, env);
      && created.out == Created
      && (forall s | IsScanOf(s, created.table) && DecodeAll(s, codec).Some? ::
            DecodeAll(s, codec).value == [ListTodoResponse(env.newId, req.name, req.description, req.createDate)])
      && updated.out == Done
      && updated.table[env.newId].updateDate == Some(env.now)
      && (forall s | IsScanOf(s, updated.table) && DecodeAll(s, codec).Some? ::
            DecodeAll(s, codec).value == [ListTodoResponse(env.newId, upd.name, upd.description, req.createDate)])
      && removed == Step(Done, map[])
      && (forall s | IsScanOf(s, removed.table) :: ListEffect(Some(s), codec) == Reply(Response(StatusOK, "null")))
  {
    var req, upd := codec.unmarshalCreate(post.body).value, codec.unmarshalUpdate(put.body).value;
    var t1 := SaveEffect(map[], post, codec, env).table;
    assert t1 == map[env.newId := MarshalItem(req)];
    forall s | IsScanOf(s, t1) && DecodeAll(s, codec).Some?
      ensures DecodeAll(s, codec).value == [ListTodoResponse(env.newId, req.name, req.description, req.createDate)]
    {
      SingleItemListing(s, env.newId, MarshalItem(req), codec);
    }
    var t2 := UpdateEffect(t1, put, codec, env).table;
    var item2 := Item(upd.name, upd.description, Some(req.createDate), Some(env.now));
    assert t2 == map[env.newId := item2];
    forall s | IsScanOf(s, t2) && DecodeAll(s, codec).Some?
      ensures DecodeAll(s, codec).value == [ListTodoResponse(env.newId, upd.name, upd.description, req.createDate)]
    {
      SingleItemListing(s, env.newId, item2, codec);
    }
    var t3 := RemoveEffect(t2, del, env).table;
    assert t3 == map[];
    forall s | IsScanOf(s, t3) ensures ListEffect(Some(s), codec) == Reply(Response(StatusOK, "null")) {
      EmptyTableListsNull(s, codec);
    }
  }
}
