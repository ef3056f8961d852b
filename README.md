# serverless-todo: the request handler, modelled in Dafny

The back end of this to-do application is one AWS Lambda function,
`lambda_handler` in `backend/lambda_function.py`. It receives an API
Gateway proxy event and routes on the event's exact, case-sensitive HTTP
method:

- `OPTIONS` answers a CORS preflight with 200 and the JSON string `"CORS OK"`;
- `GET` scans the DynamoDB table `TodoTable` and returns its items;
- `POST` stores a new record `{id: <uuid>, task, status: "pending"}` and returns it;
- `PUT` builds a partial update from the fields the body carries
  (`task = :t`, then `#st = :s`, with `#st` bound to `status` because
  `status` is a reserved word in DynamoDB's expression language), refuses a
  body with neither field with 400 `{"message": "No fields"}`, and returns the
  new values of the updated attributes;
- `DELETE` deletes the record with the body's `id` and returns 200
  `{"message": "Item deleted"}`;
- any other method gets 400 `{"message": "Unsupported method"}`.

Every fault raised inside the handler's `try` (a body that is missing or
not a JSON object, a missing body field, a failing table call) becomes 500
`{"error": str(e)}`. Every response carries the same fixed JSON and CORS
headers.

The model has five modules in four files:

- `Wrappers` (`wrappers.dfy`): `Option` and `Result`.
- `UpdateExpression` (`update_expression.dfy`): the part of DynamoDB's
  update-expression language the handler uses. It holds the command the
  handler sends (`UpdateCommand`), Python's `", ".join` (`Join`), and, as
  the table's side of the contract, reading a `SET` expression back
  (`Parse`) and resolving its placeholders (`Interpret`). `Interpret`
  refuses undefined or unused placeholders, an empty
  `ExpressionAttributeNames`, a literal reserved word, overlapping paths and
  updates of the key attribute `id`.
- `Table` (`table.dfy`): the table as a map from `id` to item, where an item
  is a map from attribute names to values. `Put`, `Update` and `Delete` are
  the pure effects of `put_item`, `update_item` (an upsert: a missing record
  is created holding only its key and the set attributes) and `delete_item`.
  The class `TodoTable` holds the map in the field `items`. Its methods
  `Scan`, `PutItem`, `UpdateItem` and `DeleteItem` change it as those
  functions say, and keep the invariant that every item is stored under its
  own `id`.
- `LambdaFunction` and `HandlerProperties` (`lambda_function.dfy`): the
  request, body and response datatypes, the imperative update builder
  `BuildUpdate`, the handler method `LambdaHandler`, and `Handle`, the pure
  description of one request that `LambdaHandler` is proved against. The
  lemmas stating what the handler promises are stated over `Handle`.

The environment enters as parameters:

- `freshId` is the identifier `uuid.uuid4()` would produce.
- `failure` is the failure, if any, of the one table call a request makes.
- `listing` is the order in which a scan lists the table. `LambdaHandler`
  returns it as a ghost out-parameter and proves that it lists exactly the
  table's items.

A POST without `task`, and a PUT or DELETE without `id`, raise `KeyError`
inside the `try` and so answer 500 (`PostWithoutTaskFails`,
`PutWithoutIdFails`); the only 400s are "No fields" and "Unsupported
method".

## Model

| member | source | states |
|---|---|---|
| LambdaFunction.Handle | backend/lambda_function.py:15-124 | every response carries the fixed headers, and its status code is 200, 400 or 500; a response other than 200 leaves the table unchanged; every item stays stored under its own id |
| LambdaFunction.LambdaHandler | backend/lambda_function.py:15-124 | the handler makes exactly one table call when the request reaches it (GET; POST with `task`; PUT with `id` and a field; DELETE with `id`) and none otherwise (OPTIONS, an unsupported method, a missing body or field, "No fields"); its response and the new table are those `Handle` gives for the old table; for GET the listing is an enumeration of the old table |
| LambdaFunction.Create | backend/lambda_function.py:48-61 | POST's outcome keeps the fixed headers and the 200/400/500 codes, and leaves the table alone unless it succeeds |
| LambdaFunction.Modify | backend/lambda_function.py:64-99 | PUT's outcome keeps the fixed headers and the 200/400/500 codes, and leaves the table alone unless it succeeds |
| LambdaFunction.Remove | backend/lambda_function.py:102-109 | DELETE's outcome keeps the fixed headers and the 200/400/500 codes, and leaves the table alone unless it succeeds |
| LambdaFunction.UpdateCommandFor | backend/lambda_function.py:68-91 | no command exactly when neither `task` nor `status` is sent; otherwise the key is the id and `ReturnValues` is "UPDATED_NEW"; the expression is "SET task = :t", "SET #st = :s" or "SET task = :t, #st = :s"; the values map holds exactly `:t` and/or `:s` with the sent values; `ExpressionAttributeNames` is `{#st: status}` if and only if `status` is sent, and absent otherwise |
| LambdaFunction.BuildUpdate | backend/lambda_function.py:68-91 | the command built step by step, by appending clauses and filling the two maps, is `UpdateCommandFor` of the body |
| HandlerProperties.UpdateCommandParses | backend/lambda_function.py:72-86 | the joined expression reads back as its clauses in order: the `task` action first, then the `#st` action |
| HandlerProperties.SentActionsUsePlaceholders | backend/lambda_function.py:68-79 | the placeholders bound in the values and names maps are exactly those the clauses use |
| HandlerProperties.UpdateCommandSetsSentFields | backend/lambda_function.py:72-91 | the table reads the built command as setting exactly the attributes the body sent, to the values sent; no other attribute is named |
| HandlerProperties.LiteralStatusRefused | backend/lambda_function.py:76-79 | a literal `status` path at any position among the actions makes their assignments fail, whatever the names and values maps |
| HandlerProperties.LiteralStatusIsRefused | backend/lambda_function.py:76-79 | the table refuses every command whose expression has a clause naming `status` literally, whatever its other clauses and placeholders, which is why the name placeholder `#st` is used |
| HandlerProperties.LiteralStatusAloneIsRefused | backend/lambda_function.py:76-79 | the command "SET status = :s" is refused |
| HandlerProperties.LiteralStatusWithTaskIsRefused | backend/lambda_function.py:72-79 | the command "SET task = :t, status = :s" is refused |
| HandlerProperties.OptionsAcknowledges | backend/lambda_function.py:30-35 | OPTIONS answers 200 "CORS OK" and leaves the table unchanged |
| HandlerProperties.UnsupportedMethodRejected | backend/lambda_function.py:111-116 | the response is 400 "Unsupported method" if and only if the method is none of the exact strings OPTIONS, GET, POST, PUT, DELETE; the table is then unchanged |
| HandlerProperties.GetListsTable | backend/lambda_function.py:38-45 | GET answers 200 with the scan's listing of the table and leaves it unchanged; the listing is empty if and only if the table is |
| HandlerProperties.PostStoresPendingRecord | backend/lambda_function.py:48-61 | POST stores exactly `{id: freshId, task, status: "pending"}` under `freshId` and answers with that item; with a fresh id the table grows by one and no other record changes |
| HandlerProperties.PostWithoutTaskFails | backend/lambda_function.py:49-56 | POST without `task` answers 500 with the `KeyError` and stores nothing |
| HandlerProperties.PutWithoutFieldsRejected | backend/lambda_function.py:81-82 | the response is 400 "No fields" if and only if it is a PUT whose body has an `id` but neither `task` nor `status`; the table is then unchanged |
| HandlerProperties.PutWithoutIdFails | backend/lambda_function.py:65-66 | PUT without `id` answers 500 with the `KeyError` and leaves the table unchanged, whatever fields the body carries |
| HandlerProperties.PutSetsSentFields | backend/lambda_function.py:64-99 | PUT sets exactly the sent fields on record `id`, creating it when absent, and answers 200 with just those fields' new values |
| HandlerProperties.PutLeavesUnsentFields | backend/lambda_function.py:72-79 | a field the body does not send keeps its presence and value in the record (status alone leaves `task` as it was, and the reverse); other records are unchanged |
| HandlerProperties.PutOnUnknownIdCreatesPartialRecord | backend/lambda_function.py:84-93 | a status-only PUT for an id that is not stored creates a record holding only `id` and `status` |
| HandlerProperties.DeleteRemovesRecord | backend/lambda_function.py:102-109 | DELETE removes the key if it is present and always answers 200 "Item deleted" |
| HandlerProperties.DeleteIsIdempotent | backend/lambda_function.py:102-109 | a second identical DELETE gives the same response and the same table |
| HandlerProperties.StoreFailureIsServerError | backend/lambda_function.py:118-124 | a failing table call answers 500 carrying the failure and leaves the table unchanged |
| HandlerProperties.InvalidBodyIsServerError | backend/lambda_function.py:118-124 | for POST, PUT and DELETE, a body that is missing or not a JSON object answers 500 and leaves the table unchanged |
| UpdateExpression.ParseJoined | backend/lambda_function.py:86 | rendered clauses joined with ", " read back as the same actions, in order |
| UpdateExpression.ParseExpression | backend/lambda_function.py:86 | "SET " followed by the joined clauses parses to the actions, in order |
| UpdateExpression.Interpret | backend/lambda_function.py:84-93 | a command the table accepts parses, has a non-empty values map, does not pass an empty names map, and never sets the key attribute `id` |
| Table.Put | backend/lambda_function.py:56 | `put_item` succeeds when there is no failure and the item has an `id`; it then stores the item under its id, leaves every other record as it was, and keeps every item under its own id |
| Table.Update | backend/lambda_function.py:93 | `update_item` succeeds if and only if there is no failure, the table accepts the command and `ReturnValues` is "UPDATED_NEW"; it then merges the interpreted assignments into the stored record, or into `{id}` when there is none; it returns exactly the assignments; every item stays under its own id |
| Table.UpsertKeepsIds | backend/lambda_function.py:84-93 | an upsert that does not set `id` keeps every item stored under its own id |
| Table.Delete | backend/lambda_function.py:104 | `delete_item` succeeds whenever there is no failure, removes exactly that key and changes no other record |
| Table.TodoTable.Scan | backend/lambda_function.py:39-40 | the scan counts as one call and leaves the contents unchanged; it returns the table's items, each present, as many as there are records, or fails with the injected failure |
| Table.TodoTable.PutItem | backend/lambda_function.py:56 | one call; the table's new contents are those `Put` gives; on failure they are unchanged |
| Table.TodoTable.UpdateItem | backend/lambda_function.py:93 | one call; the table's new contents and the returned attributes are those `Update` gives; on failure the table is unchanged |
| Table.TodoTable.DeleteItem | backend/lambda_function.py:104 | one call; the table's new contents are those `Delete` gives; on failure they are unchanged |

## Left out

- `DecimalEncoder` (backend/lambda_function.py:9-13) is not modelled. It converts DynamoDB decimals to floats, which is floating-point arithmetic, and every attribute value in the model is a string.
- JSON decoding and encoding are not modelled. Bodies are typed `Payload` values and responses are typed `Body` values. A body that is absent, not JSON or not an object is the single case `None`.
- Attribute values are strings only. JSON numbers, booleans, `null` and nested values in a body are not modelled.
- The boto3 resource and the table globals (backend/lambda_function.py:6-7) are replaced by the `TodoTable` object passed to the handler.
- `uuid.uuid4()` is replaced by the parameter `freshId`. Its uniqueness and non-emptiness are not modelled; `PostStoresPendingRecord` states what a fresh id gives.
- The `print` logging calls (backend/lambda_function.py:16, 119) are not modelled.
- The text of `str(e)` is not modelled. The error body carries the fault itself: `InvalidBody`, `MissingKey(key)` or the table's fault.
- `event['httpMethod']` (backend/lambda_function.py:18) is read outside the `try`, so an event without a method raises past the handler. The model's events always have a method.
- Scan pagination is not modelled: a scan returns the whole table in one call. The order of the scan is the table's choice. The model keeps it as a parameter and does not fix it.
- Table failures are modelled as one optional failure per request. Throttling, retries and timeouts are not modelled.
- DynamoDB's expression language is cut down to what the handler uses: `SET` with single spaces, `path = :value` actions and `, ` separators. The list of reserved words is an excerpt.
- DynamoDB's refusal of empty-string key values is not modelled.
- Table.Update: only the `ReturnValues` setting "UPDATED_NEW", the one the handler passes, is modelled; the model refuses every other setting.
- DynamoDB's item-size limits are not modelled.
