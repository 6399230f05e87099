# Todo API handler — a Dafny model

This project models the request handler of a serverless todo REST API: an
AWS Lambda function, written in Go, behind an API gateway, storing todos in
one DynamoDB table keyed by `id`. The handler looks up the request's HTTP
method in a dispatch table filled at process start. It then runs one of four
actions:

- `POST` creates a todo under a freshly generated id;
- `GET` scans and lists every todo;
- `PUT` sets `name`, `description` and `updateDate` on the todo named in the path;
- `DELETE` removes the todo named in the path.

Each action answers with a status code and body, or with an invocation error,
which the Lambda runtime reports instead of a response.

Layout:

- `wrappers.dfy` — `Option`.
- `http.dfy` — the method names, status codes and `http.StatusText` reason phrases of Go's `net/http`.
- `records.dfy` — the wire and stored records, and the library conversions. JSON decoding is an abstract partial function. `MarshalMap` and `UnmarshalMap` are written out, and only whether they fail is left abstract. For `json.Marshal` of the list, the list's framing is written out; each entry's encoding is abstract.
- `effects.dfy` — for each action, a function giving its outcome and the table it leaves. It also holds the lemmas that relate actions: a created todo is listed, an updated one is listed with its new fields, a deleted one is not, deleting twice answers 200 twice, and a whole create–update–delete lifecycle.
- `lambda.dfy` — class `TodoApi`. It holds the immutable dispatch table `actions` and the codec as `const` fields and the store table as a `var`. It has the store calls (`Scan`, `PutItem`, `UpdateItem`, `DeleteItem`), the four actions and `Handler`. Each action is proved to produce exactly the outcome and table of its function in `effects.dfy`.

Outside inputs are oracles carried by `Records.Env`, one per invocation:

- the id `uuid.NewString` returns;
- the `time.Now` reading formatted as RFC 3339;
- how the one store call of the invocation ends (`Records.StoreCall`): it completes, or it returns an error. A call that returns an error may have taken effect or not.

The library conversions are the fields of `Records.Codec`, fixed for the process.

Points where the code behaves differently from what a client of the API might expect:

- `createDate` is taken from the POST body (`CreateTodoRequest` has a `createDate` JSON field). The server never stamps it.
- Listing an empty table answers 200 with the body `null`, not `[]`. The list is a nil slice until something is appended.
- A PUT body that does not decode is an invocation error, not a 400.
- Listing entries (`ListTodoResponse`) carry no `updateDate`, so a listing never shows one.
- No check that `name` is non-empty is made anywhere.
- A store call that errs after the store applied it (a put or delete that outlived its 3-second deadline, or a lost answer) produces a 500 even though the table changed.
- Only the scan, put and delete calls carry a 3-second deadline. The `UpdateItem` call has no context, so a slow update is not cut off after 3 seconds. It runs until the SDK gives up or the Lambda's own time limit ends the invocation.
- Updating an absent key is an upsert. This is DynamoDB's behaviour for `UpdateItem`, and the code does not decide it. The created item has no `createDate` and lists with Go's zero time `0001-01-01T00:00:00Z`.

## Model

| member | source | states |
|---|---|---|
| `Http.StatusText` | lambda/main.go:226 | the reason phrase is "Bad Request" for 400, "Internal Server Error" for 500, empty for codes net/http does not name |
| `Effects.HttpError` | lambda/main.go:219-228 | always a response, never a Go error, with the given status code and that code's reason phrase as body |
| `Records.MarshalItem` | lambda/main.go:117-123 | the stored item has no updateDate, and reading it back under any id gives the request's name, description and createDate |
| `Records.UnmarshalItem` | lambda/main.go:89-91 | the entry takes the key as id and the stored name and description; its createDate is the stored one, or Go's zero time when the item has none |
| `Records.DecodeAll` | lambda/main.go:87-96 | decoding succeeds iff every scanned item decodes; then one entry per scanned item, in scan order, each the UnmarshalItem reading of that item |
| `Records.EncodeAll` | lambda/main.go:98 | encoding succeeds iff every entry encodes; then one encoded element per entry, in order |
| `Records.Join` | lambda/main.go:98 | a single element is the text itself; a non-empty list joins to the elements' total length plus one comma between each pair |
| `Records.JoinAppend` | lambda/main.go:98 | appending an element appends a comma and that element to the joined text |
| `Records.MarshalList` | lambda/main.go:87-102 | marshalling fails iff some entry fails; the body is "null" exactly when the list is empty, otherwise "[" + the entries' encodings joined by commas, in order + "]" |
| `Effects.SetAttributes` | lambda/main.go:160-180 | the key is present afterwards with the new name, description and updateDate and its old createDate (none if it was absent); every other key is unchanged |
| `Effects.ListEffect` | lambda/main.go:73-108 | a failed scan is an invocation error; only a failed scan is an invocation error; an item that does not decode, or an entry that does not marshal, gives 500; otherwise 200 with the marshalled list; an empty scan gives 200 "null"; a success is 200 with every item decoded, its body the JSON marshalling of the decoded entries in scan order, and "null" iff the scan was empty |
| `Effects.SaveEffect` | lambda/main.go:110-141 | an undecodable body gives 400 and an unchanged table; a MarshalMap failure gives 500 and an unchanged table; a failed put gives 500; 201 iff decode, marshal and put complete; the table changes only when the put is issued and the store applies it (also when it then errs), and then exactly the new id is added, holding the body's name, description and createDate, other keys unchanged |
| `Effects.FreshSaveAddsOne` | lambda/main.go:121-133 | a create under an id not already stored grows the table by exactly one item |
| `Effects.UpdateEffect` | lambda/main.go:143-189 | a missing path id gives 400 whatever the body; an undecodable body is an invocation error; a body id unequal to the path id gives 400; a failed expression build gives 500; each leaves the table unchanged; a failed update call gives 500; 200 iff all checks and the expression build pass and the store call completes; the table changes only when the store applies the update (also when it then errs), and then the keyed item has the body's name and description, updateDate set to the timestamp, its createDate kept, every other key unchanged |
| `Effects.RemoveEffect` | lambda/main.go:191-217 | a missing path id gives 400 and an unchanged table; a failed delete gives 500; 200 iff the id is present and the delete completes, found or not; the table changes only when the store applies the delete (also when it then errs), and then the key is gone and every other item is unchanged |
| `Effects.LateFailureStillWrites` | lambda/main.go:133-135 | a store call that errs after the store applied it answers a failure, yet leaves the table a completed call leaves (also for main.go:182-183 and main.go:209-211) |
| `Effects.EmptyTableListsNull` | lambda/main.go:87-107 | listing an empty table answers 200 with the body "null" |
| `Effects.UndecodableItemFailsListing` | lambda/main.go:88-94 | one stored item that does not decode makes every listing of the table answer 500 |
| `Effects.ListingOfTable` | lambda/main.go:81-107 | whatever order the scan takes: a failed scan is an invocation error, an undecodable stored item gives 500 "Internal Server Error", an empty table gives 200 "null" |
| `Effects.ScanSize` | lambda/main.go:81-88 | a scan yields exactly as many items as the table holds |
| `Effects.ListedOnce` | lambda/main.go:88-96 | in a decoded listing every stored key appears with its stored fields, and no id appears twice |
| `Effects.SavedTodoIsListed` | lambda/main.go:117-140 | after a create, every decoded listing contains the new id exactly once, with the body's name, description and createDate, and every other entry was already stored |
| `Effects.UpdatedTodoIsListed` | lambda/main.go:160-188 | after an update, every decoded listing shows the path id with the body's name and description and the createDate it had before (zero time if new) |
| `Effects.RemovedTodoIsNotListed` | lambda/main.go:200-216 | after a delete, no decoded listing shows the deleted id |
| `Effects.RemoveIsIdempotent` | lambda/main.go:191-216 | deleting the same id twice answers 200 both times, and the second delete changes nothing |
| `Effects.MismatchedUpdateIsRejected` | lambda/main.go:155-158 | a body id different from the path id answers 400 "Bad Request" and leaves the table unchanged |
| `Effects.SingleItemListing` | lambda/main.go:87-96 | a decoded listing of a one-item table is exactly that item's entry, and the body is "[" + its encoding + "]" (or 500 if it does not encode) |
| `Effects.Lifecycle` | lambda/main.go:110-216 | from an empty table: create answers 201 and every decodable listing is exactly the new todo; update answers 200 and the listing shows the new fields with createDate kept, and the stored item has updateDate stamped; delete answers 200 and empties the table; the last listing is 200 "null" |
| `Lambda.TodoApi.constructor` | lambda/main.go:55-59 | the dispatch table registers exactly POST, GET, PUT and DELETE to save, list, update and remove, and the codec and table are the ones given |
| `Lambda.TodoApi.Route` | lambda/main.go:65-66 | each of the four method names selects its action, and every other string, case variants included, selects none |
| `Lambda.TodoApi.Scan` | lambda/main.go:77-84 | a failed call yields nothing; otherwise every stored item exactly once with its attributes, in an order the store chooses |
| `Lambda.TodoApi.PutItem` | lambda/main.go:128-136 | reports success iff the call completes; when the store applies it, the item is stored under the id, replacing any previous one; otherwise the table is unchanged |
| `Lambda.TodoApi.UpdateItem` | lambda/main.go:170-183 | reports success iff the call completes; when the store applies it, the table is the attribute update of the key, upserting; otherwise unchanged |
| `Lambda.TodoApi.DeleteItem` | lambda/main.go:200-212 | reports success iff the call completes; when the store applies it, the key is absent and the rest unchanged; otherwise unchanged |
| `Lambda.TodoApi.GetTodos` | lambda/main.go:73-108 | changes nothing; a failed scan is an invocation error, any undecodable stored item gives 500, an empty table gives 200 "null"; in general the outcome is ListEffect of a scan of the table (one entry per item, in scan order) |
| `Lambda.TodoApi.SaveTodo` | lambda/main.go:110-141 | outcome and new table are exactly those of SaveEffect |
| `Lambda.TodoApi.UpdateTodo` | lambda/main.go:143-189 | outcome and new table are exactly those of UpdateEffect |
| `Lambda.TodoApi.RemoveTodo` | lambda/main.go:191-217 | outcome and new table are exactly those of RemoveEffect |
| `Lambda.TodoApi.Handler` | lambda/main.go:64-71 | an unregistered method answers 500 "Internal Server Error" with the table unchanged; each registered method behaves exactly as its action; a 400 never changes the table, and no other failure does unless a store call erred after taking effect |

## Left out

- AWS session and DynamoDB client construction, and reading `TableName` from the environment: these are foreign calls and ambient configuration. A store that cannot be reached is covered by the store-call failure oracle.
- The 3-second `context.WithTimeout` deadlines of the scan, put and delete calls: wall-clock timing. A call that misses its deadline is modelled as a call that returns an error, which the store may or may not have applied (`Records.StoreCall`).
- Lambda.TodoApi.UpdateTodo: the update call has no deadline. The model renders every failure of it as a 500 and does not capture an update that hangs until the Lambda's own time limit ends the invocation.
- Lambda.TodoApi.Scan: modelled as one complete, strongly consistent read of the whole table. The source issues a single Scan without `ConsistentRead` and without following `LastEvaluatedKey`. DynamoDB then returns at most one 1 MB page, read with eventual consistency. So `Effects.ScanSize`, `Effects.ListedOnce`, `Effects.SavedTodoIsListed`, `Effects.UpdatedTodoIsListed`, `Effects.RemovedTodoIsNotListed`, `Effects.SingleItemListing` and `Effects.Lifecycle` hold only for a table that fits in one page and for a read made after earlier writes are visible.
- The internals of `json.Unmarshal`, `json.Marshal` of one entry, `dynamodbattribute.MarshalMap`/`UnmarshalMap` and the `expression` builder: library code, modelled as abstract partial functions in `Records.Codec`. The `dynamodbav` tag quirks (`"description, omitempty"`) are not modelled.
- `uuid.NewString` and `time.Now`: oracles in `Records.Env`. The id's freshness is not assumed by the actions. The lemmas that need it say so (`Effects.FreshSaveAddsOne` grows the table by one only for an id not already stored).
- `log.Println` of error causes, `lambda.Start` and `main`: I/O and runtime plumbing.
- Concurrent invocations: each invocation is modelled as one atomic step on the table.
- `cdk-todo-api.go`, which declares the infrastructure, is not part of this model.
