/** `lambda_handler` of the to-do back end: an API Gateway proxy request
    is routed on its exact, case-sensitive HTTP method to a preflight
    acknowledgement (OPTIONS), a scan of the table (GET), the creation of a
    record (POST), a partial update built from the fields the body carries
    (PUT) or a delete (DELETE); any other method is refused with 400, and
    every fault raised on the way becomes a 500. */
module LambdaFunction {
  import opened Wrappers
  import opened UpdateExpression
  import opened Table

  /** The fields of a decoded JSON request body that the handler reads;
      a field the body does not carry is `None`. */
  datatype Payload = Payload(id: Option<string>, task: Option<string>, status: Option<string>)

  /** The proxy event. `body` is `None` when the event has no body, or its
      body is not a JSON object. */
  datatype Event = Event(httpMethod: string, body: Option<Payload>)

  /** What the handler's `except` clause catches. */
  datatype Fault =
    | InvalidBody              // `event['body']` absent, not JSON, or not an object
    | MissingKey(key: string)  // `KeyError` on reading a body field
    | Store(cause: StoreFault) // an error raised by the table call

  /** The response body, before it is serialised to JSON. */
  datatype Body =
    | Text(text: string)                   // a bare JSON string
    | Items(items: seq<Item>)              // a JSON array of items
    | Object(attributes: map<string, string>)
    | Message(message: string)             // {"message": ...}
    | ErrorMessage(error: Fault)           // {"error": str(e)}

  datatype Response = Response(statusCode: int, headers: map<string, string>, body: Body)

  /** A response and the table after the request. */
  datatype Outcome = Outcome(response: Response, store: map<string, Item>)

  /** The fixed headers of every response: JSON content and a permissive CORS policy. */
  function Headers(): map<string, string>
  {
    map[
      "Content-Type" := "application/json",
      "Access-Control-Allow-Origin" := "*",
      "Access-Control-Allow-Methods" := "OPTIONS,POST,GET,PUT,DELETE",
      "Access-Control-Allow-Headers" := "Content-Type,X-Amz-Date,Authorization,X-Api-Key,X-Amz-Security-Token"
    ]
  }

  /** The methods the handler routes. */
  predicate IsRouted(httpMethod: string)
  {
    httpMethod in {"OPTIONS", "GET", "POST", "PUT", "DELETE"}
  }

  function Respond(statusCode: int, body: Body): Response
  {
    Response(statusCode, Headers(), body)
  }

  function ServerError(store: map<string, Item>, fault: Fault): Outcome
  {
    Outcome(Respond(500, ErrorMessage(fault)), store)
  }

  /** What holds of every outcome: the fixed headers, a status code of 200,
      400 or 500, a table left alone unless the request succeeded, and
      every item still stored under its own id. */
  ghost predicate Answered(store: map<string, Item>, o: Outcome)
  {
    && o.response.headers == Headers()
    && o.response.statusCode in {200, 400, 500}
    && (o.response.statusCode != 200 ==> o.store == store)
    && (KeysMatchIds(store) ==> KeysMatchIds(o.store))
  }

  // ----- POST -----

  /** The item POST stores: a new id, the given task and status "pending". */
  function NewRecord(id: string, task: string): Item
  {
    map[KeyAttribute := id, "task" := task, "status" := "pending"]
  }

  function Create(store: map<string, Item>, body: Option<Payload>, freshId: string, failure: Option<string>)
    : (o: Outcome)
    ensures Answered(store, o)
  {
    match body
    case None => ServerError(store, InvalidBody)
    case Some(p) =>
      if p.task.None? then ServerError(store, MissingKey("task"))
      else
        var item := NewRecord(freshId, p.task.value);
        match Put(store, item, failure)
        case Failure(e) => ServerError(store, Store(e))
        case Success(next) => Outcome(Respond(200, Object(item)), next)
  }

  // ----- PUT -----

  /** The attributes an update sends and their new values: `task` and
      `status`, each only when the body carries it. */
  function SentFields(task: Option<string>, status: Option<string>): Item
  {
    (if task.Some? then map["task" := task.value] else map[])
    + (if status.Some? then map["status" := status.value] else map[])
  }

  /** The `ExpressionAttributeValues` of the command for a PUT body. */
  function PlaceholderValues(task: Option<string>, status: Option<string>): map<string, string>
  {
    (if task.Some? then map[":t" := task.value] else map[])
    + (if status.Some? then map[":s" := status.value] else map[])
  }

  /** The `update_item` command for a PUT body, or `None` when the body
      names no field to change. */
  function UpdateCommandFor(itemId: string, task: Option<string>, status: Option<string>)
    : (r: Option<UpdateCommand>)
    ensures r.None? <==> task.None? && status.None?
    ensures r.Some? ==> r.value.key == itemId && r.value.returnValues == "UPDATED_NEW"
    ensures r.Some? && task.Some? && status.None? ==> r.value.updateExpression == "SET task = :t"
    ensures r.Some? && task.None? && status.Some? ==> r.value.updateExpression == "SET #st = :s"
    ensures r.Some? && task.Some? && status.Some? ==> r.value.updateExpression == "SET task = :t, #st = :s"
    ensures r.Some? ==> r.value.attributeValues.Keys == (if task.Some? then {":t"} else {}) + (if status.Some? then {":s"} else {})
    ensures r.Some? && task.Some? ==> r.value.attributeValues[":t"] == task.value
    ensures r.Some? && status.Some? ==> r.value.attributeValues[":s"] == status.value
    ensures r.Some? ==> r.value.attributeNames == if status.Some? then Some(map["#st" := "status"]) else None
  {
    var clauses := (if task.Some? then ["task = :t"] else []) + (if status.Some? then ["#st = :s"] else []);
    var values := PlaceholderValues(task, status);
    var names := if status.Some? then map["#st" := "status"] else map[];
    assert status.Some? ==> "#st" in names;
    assert task.Some? && status.Some? ==>
      clauses[1..] == ["#st = :s"] && Join(", ", clauses) == "task = :t" + ", " + "#st = :s";
    if clauses == [] then None
    else Some(UpdateCommand(itemId, "SET " + Join(", ", clauses), values,
                            if names == map[] then None else Some(names), "UPDATED_NEW"))
  }

  /** Builds the update command step by step, appending one clause per
      field the body carries, as the handler does. */
  method BuildUpdate(itemId: string, body: Payload) returns (cmd: Option<UpdateCommand>)
    ensures cmd == UpdateCommandFor(itemId, body.task, body.status)
  {
    var updateExpression: seq<string> := [];
    var expressionValues: map<string, string> := map[];
    var expressionNames: map<string, string> := map[];
    if body.task.Some? {
      updateExpression := updateExpression + ["task = :t"];
      expressionValues := expressionValues[":t" := body.task.value];
    }
    if body.status.Some? {
      updateExpression := updateExpression + ["#st = :s"];
      expressionValues := expressionValues[":s" := body.status.value];
      expressionNames := expressionNames["#st" := "status"];
    }
    if updateExpression == [] {
      return None;
    }
    assert updateExpression == (if body.task.Some? then ["task = :t"] else []) + (if body.status.Some? then ["#st = :s"] else []);
    assert expressionValues == PlaceholderValues(body.task, body.status);
    assert expressionNames == if body.status.Some? then map["#st" := "status"] else map[];
    var command := UpdateCommand(itemId, "SET " + Join(", ", updateExpression), expressionValues, None, "UPDATED_NEW");
    if expressionNames != map[] {
      command := command.(attributeNames := Some(expressionNames));
    }
    return Some(command);
  }

  function Modify(store: map<string, Item>, body: Option<Payload>, failure: Option<string>): (o: Outcome)
    ensures Answered(store, o)
  {
    match body
    case None => ServerError(store, InvalidBody)
    case Some(p) =>
      if p.id.None? then ServerError(store, MissingKey("id"))
      else
        match UpdateCommandFor(p.id.value, p.task, p.status)
        case None => Outcome(Respond(400, Message("No fields")), store)
        case Some(cmd) =>
          match Update(store, cmd, failure)
          case Failure(e) => ServerError(store, Store(e))
          case Success(u) => Outcome(Respond(200, Object(u.attributes)), u.items)
  }

  // ----- DELETE -----

  function Remove(store: map<string, Item>, body: Option<Payload>, failure: Option<string>): (o: Outcome)
    ensures Answered(store, o)
  {
    match body
    case None => ServerError(store, InvalidBody)
    case Some(p) =>
      if p.id.None? then ServerError(store, MissingKey("id"))
      else
        match Delete(store, p.id.value, failure)
        case Failure(e) => ServerError(store, Store(e))
        case Success(next) => Outcome(Respond(200, Message("Item deleted")), next)
  }

  // ----- the handler -----

  /** The request's effect on the table `store` and its response. `freshId`
      is the identifier the generator hands out, `failure` the failure (if
      any) of the one table call the request makes, and `listing` the
      order in which a scan of `store` lists its items. */
  function Handle(store: map<string, Item>, event: Event, freshId: string, failure: Option<string>,
                  listing: seq<Item>): (o: Outcome)
    ensures o.response.headers == Headers()
    ensures o.response.statusCode in {200, 400, 500}
    ensures o.response.statusCode != 200 ==> o.store == store
    ensures KeysMatchIds(store) ==> KeysMatchIds(o.store)
  {
    var m := event.httpMethod;
    if m == "OPTIONS" then Outcome(Respond(200, Text("CORS OK")), store)
    else if m == "GET" then
      if failure.Some? then ServerError(store, Store(ServiceFault(failure.value)))
      else Outcome(Respond(200, Items(listing)), store)
    else if m == "POST" then Create(store, event.body, freshId, failure)
    else if m == "PUT" then Modify(store, event.body, failure)
    else if m == "DELETE" then Remove(store, event.body, failure)
    else Outcome(Respond(400, Message("Unsupported method")), store)
  }

  /** The requests that reach their table call: GET, and POST, PUT or
      DELETE whose body carries the fields read before the call. OPTIONS,
      an unsupported method, a missing body or field and "No fields" make
      no call. */
  predicate CallsTable(event: Event)
  {
    || event.httpMethod == "GET"
    || (event.httpMethod == "POST" && event.body.Some? && event.body.value.task.Some?)
    || (event.httpMethod == "PUT" && event.body.Some? && event.body.value.id.Some?
        && (event.body.value.task.Some? || event.body.value.status.Some?))
    || (event.httpMethod == "DELETE" && event.body.Some? && event.body.value.id.Some?)
  }

  /** The handler: exactly one call on `table` when the request reaches
      it and none otherwise, and a response whose every path is the one
      `Handle` describes. For GET, `listing` is the order in which the
      scan listed the table. */
  method LambdaHandler(table: TodoTable, event: Event, freshId: string, failure: Option<string>)
    returns (response: Response, ghost listing: seq<Item>)
    requires table.Valid()
    modifies table
    ensures table.Valid()
    ensures table.calls == old(table.calls) + (if CallsTable(event) then 1 else 0)
    ensures event.httpMethod == "GET" && failure.None? ==> Enumerates(listing, old(table.items))
    ensures Handle(old(table.items), event, freshId, failure, listing) == Outcome(response, table.items)
  {
    var headers := Headers();
    listing := [];
    var m := event.httpMethod;
    if m == "OPTIONS" {
      response := Response(200, headers, Text("CORS OK"));
    } else if m == "GET" {
      var scanned := table.Scan(failure);
      match scanned
      case Failure(e) =>
        response := Response(500, headers, ErrorMessage(Store(e)));
      case Success(items) =>
        listing := items;
        response := Response(200, headers, Items(items));
    } else if m == "POST" {
      if event.body.None? {
        response := Response(500, headers, ErrorMessage(InvalidBody));
      } else if event.body.value.task.None? {
        response := Response(500, headers, ErrorMessage(MissingKey("task")));
      } else {
        var item := NewRecord(freshId, event.body.value.task.value);
        var fault := table.PutItem(item, failure);
        if fault.Some? {
          response := Response(500, headers, ErrorMessage(Store(fault.value)));
        } else {
          response := Response(200, headers, Object(item));
        }
      }
    } else if m == "PUT" {
      if event.body.None? {
        response := Response(500, headers, ErrorMessage(InvalidBody));
      } else if event.body.value.id.None? {
        response := Response(500, headers, ErrorMessage(MissingKey("id")));
      } else {
        var itemId := event.body.value.id.value;
        var cmd := BuildUpdate(itemId, event.body.value);
        if cmd.None? {
          response := Response(400, headers, Message("No fields"));
        } else {
          var updated := table.UpdateItem(cmd.value, failure);
          match updated
          case Failure(e) =>
            response := Response(500, headers, ErrorMessage(Store(e)));
          case Success(attributes) =>
            response := Response(200, headers, Object(attributes));
        }
      }
    } else if m == "DELETE" {
      if event.body.None? {
        response := Response(500, headers, ErrorMessage(InvalidBody));
      } else if event.body.value.id.None? {
        response := Response(500, headers, ErrorMessage(MissingKey("id")));
      } else {
        var fault := table.DeleteItem(event.body.value.id.value, failure);
        if fault.Some? {
          response := Response(500, headers, ErrorMessage(Store(fault.value)));
        } else {
          response := Response(200, headers, Message("Item deleted"));
        }
      }
    } else {
      response := Response(400, headers, Message("Unsupported method"));
    }
  }
}

/** What the handler promises, stated over `Handle`. */
module HandlerProperties {
  import opened Wrappers
  import opened UpdateExpression
  import opened Table
  import opened LambdaFunction

  // ----- the update command -----

  /** The `SET` actions the command for a PUT body carries, in order. */
  function SentActions(task: Option<string>, status: Option<string>): seq<Action>
  {
    (if task.Some? then [Action("task", ":t")] else [])
    + (if status.Some? then [Action("#st", ":s")] else [])
  }

  lemma TaskIsNotReserved()
    ensures !IsReserved("task")
  {
    assert Upper("task") == "TASK";
  }

  /** The command reads back as its actions, in order: `task` first, then `status`. */
  lemma UpdateCommandParses(itemId: string, task: Option<string>, status: Option<string>)
    requires task.Some? || status.Some?
    ensures Parse(UpdateCommandFor(itemId, task, status).value.updateExpression) == Some(SentActions(task, status))
  {
    var actions := SentActions(task, status);
    var cmd := UpdateCommandFor(itemId, task, status).value;
    assert Render(Action("task", ":t")) == "task = :t";
    assert Render(Action("#st", ":s")) == "#st = :s";
    assert RenderAll(actions) == (if task.Some? then ["task = :t"] else []) + (if status.Some? then ["#st = :s"] else []);
    assert cmd.updateExpression == Expression(actions);
    assert IsToken("task") && IsToken(":t") && IsToken("#st") && IsToken(":s");
    ParseExpression(actions);
  }

  /** One step of `Assignments`: an action that resolves, in front of actions that do. */
  lemma AssignmentsCons(a: Action, rest: seq<Action>, names: map<string, string>, values: map<string, string>,
                        attribute: string, restMap: map<string, string>)
    requires ResolvePath(a.path, names) == Success(attribute)
    requires IsValuePlaceholder(a.operand) && a.operand in values
    requires attribute != KeyAttribute
    requires Assignments(rest, names, values) == Success(restMap)
    requires attribute !in restMap
    ensures Assignments([a] + rest, names, values) == Success(restMap[attribute := values[a.operand]])
  {
    assert ([a] + rest)[0] == a;
    assert ([a] + rest)[1..] == rest;
  }

  lemma StatusActionAssigns(names: map<string, string>, values: map<string, string>)
    requires names == map["#st" := "status"] && ":s" in values
    ensures Assignments([Action("#st", ":s")], names, values) == Success(map["status" := values[":s"]])
  {
    assert ResolvePath("#st", names) == Success("status");
    AssignmentsCons(Action("#st", ":s"), [], names, values, "status", map[]);
    assert [Action("#st", ":s")] + [] == [Action("#st", ":s")];
  }

  lemma TaskActionAssigns(rest: seq<Action>, names: map<string, string>, values: map<string, string>,
                          restMap: map<string, string>)
    requires "task" !in names && ":t" in values
    requires Assignments(rest, names, values) == Success(restMap) && "task" !in restMap
    ensures Assignments([Action("task", ":t")] + rest, names, values) == Success(restMap["task" := values[":t"]])
  {
    TaskIsNotReserved();
    assert ResolvePath("task", names) == Success("task");
    AssignmentsCons(Action("task", ":t"), rest, names, values, "task", restMap);
  }

  /** The actions of the command set exactly the sent fields. */
  lemma SentActionsAssign(task: Option<string>, status: Option<string>)
    ensures Assignments(SentActions(task, status), if status.Some? then map["#st" := "status"] else map[],
                        PlaceholderValues(task, status)) == Success(SentFields(task, status))
  {
    if status.Some? && task.Some? {
      BothActionsAssign(task.value, status.value);
    } else if status.Some? {
      StatusActionAssigns(map["#st" := "status"], PlaceholderValues(task, status));
      assert SentActions(task, status) == [Action("#st", ":s")];
      assert PlaceholderValues(task, status)[":s"] == status.value;
      assert map["status" := status.value] == SentFields(task, status);
    } else if task.Some? {
      TaskActionAssigns([], map[], PlaceholderValues(task, status), map[]);
      assert SentActions(task, status) == [Action("task", ":t")] + [];
      assert map[]["task" := task.value] == SentFields(task, status);
    }
  }

  lemma BothActionsAssign(task: string, status: string)
    ensures Assignments(SentActions(Some(task), Some(status)), map["#st" := "status"],
                        PlaceholderValues(Some(task), Some(status))) == Success(SentFields(Some(task), Some(status)))
  {
    var names := map["#st" := "status"];
    var values := PlaceholderValues(Some(task), Some(status));
    StatusActionAssigns(names, values);
    TaskActionAssigns([Action("#st", ":s")], names, values, map["status" := status]);
    assert SentActions(Some(task), Some(status)) == [Action("task", ":t")] + [Action("#st", ":s")];
    assert map["status" := status]["task" := task] == SentFields(Some(task), Some(status));
  }

  /** The command's placeholders are exactly the ones its actions use. */
  lemma SentActionsUsePlaceholders(task: Option<string>, status: Option<string>)
    ensures NamePaths(SentActions(task, status)) == if status.Some? then {"#st"} else {}
    ensures Operands(SentActions(task, status)) == PlaceholderValues(task, status).Keys
  {
    var actions := SentActions(task, status);
    if task.Some? { assert actions[0] == Action("task", ":t"); }
    if status.Some? { assert actions[|actions| - 1] == Action("#st", ":s"); }
  }

  /** The table reads the command as setting exactly the fields the body
      sent, to the values it sent; no other attribute is named. */
  lemma UpdateCommandSetsSentFields(itemId: string, task: Option<string>, status: Option<string>)
    requires task.Some? || status.Some?
    ensures Interpret(UpdateCommandFor(itemId, task, status).value) == Success(SentFields(task, status))
  {
    var cmd := UpdateCommandFor(itemId, task, status).value;
    var actions := SentActions(task, status);
    var names: map<string, string> := if status.Some? then map["#st" := "status"] else map[];
    UpdateCommandParses(itemId, task, status);
    SentActionsUsePlaceholders(task, status);
    assert cmd.attributeValues == PlaceholderValues(task, status);
    assert cmd.attributeValues != map[] by {
      if task.Some? { assert ":t" in cmd.attributeValues; } else { assert ":s" in cmd.attributeValues; }
    }
    InterpretAccepted(cmd, actions, names);
    SentActionsAssign(task, status);
  }

  // ----- routing -----

  /** OPTIONS answers the preflight with 200 "CORS OK" and touches nothing. */
  lemma OptionsAcknowledges(store: map<string, Item>, event: Event, freshId: string,
                            failure: Option<string>, listing: seq<Item>)
    requires event.httpMethod == "OPTIONS"
    ensures Handle(store, event, freshId, failure, listing) == Outcome(Respond(200, Text("CORS OK")), store)
  {
  }

  /** A request is refused as unsupported exactly when its method is none
      of the five routed ones, compared case-sensitively. */
  lemma UnsupportedMethodRejected(store: map<string, Item>, event: Event, freshId: string,
                                  failure: Option<string>, listing: seq<Item>)
    ensures var o := Handle(store, event, freshId, failure, listing);
      o.response == Respond(400, Message("Unsupported method")) <==> !IsRouted(event.httpMethod)
    ensures !IsRouted(event.httpMethod) ==> Handle(store, event, freshId, failure, listing).store == store
  {
  }

  // ----- GET -----

  /** GET answers with the table's items as the scan listed them, an empty
      array for an empty table, and leaves the table alone. */
  lemma GetListsTable(store: map<string, Item>, event: Event, freshId: string, listing: seq<Item>)
    requires event.httpMethod == "GET" && Enumerates(listing, store)
    ensures Handle(store, event, freshId, None, listing) == Outcome(Respond(200, Items(listing)), store)
    ensures listing == [] <==> store == map[]
  {
  }

  // ----- POST -----

  /** POST stores exactly `{id: freshId, task, status: "pending"}` and
      answers with that item; a fresh id adds one record and changes no
      other. */
  lemma PostStoresPendingRecord(store: map<string, Item>, event: Event, freshId: string, listing: seq<Item>)
    requires event.httpMethod == "POST" && event.body.Some? && event.body.value.task.Some?
    ensures var item := NewRecord(freshId, event.body.value.task.value);
      && item[KeyAttribute] == freshId && item["status"] == "pending"
      && Handle(store, event, freshId, None, listing) == Outcome(Respond(200, Object(item)), store[freshId := item])
    ensures freshId !in store ==>
      var next := Handle(store, event, freshId, None, listing).store;
      && |next| == |store| + 1
      && forall k :: k in store ==> k in next && next[k] == store[k]
  {
  }

  /** POST without `task` fails with the `KeyError` before anything is stored. */
  lemma PostWithoutTaskFails(store: map<string, Item>, event: Event, freshId: string,
                             failure: Option<string>, listing: seq<Item>)
    requires event.httpMethod == "POST" && event.body.Some? && event.body.value.task.None?
    ensures Handle(store, event, freshId, failure, listing) == ServerError(store, MissingKey("task"))
  {
  }

  // ----- PUT -----

  /** PUT answers 400 "No fields" exactly when the body carries an `id` and
      neither `task` nor `status`; the table is then left alone. */
  lemma PutWithoutFieldsRejected(store: map<string, Item>, event: Event, freshId: string,
                                 failure: Option<string>, listing: seq<Item>)
    ensures var o := Handle(store, event, freshId, failure, listing);
      o.response == Respond(400, Message("No fields")) <==>
        && event.httpMethod == "PUT" && event.body.Some? && event.body.value.id.Some?
        && event.body.value.task.None? && event.body.value.status.None?
    ensures var o := Handle(store, event, freshId, failure, listing);
      o.response.body == Message("No fields") ==> o.store == store
  {
    var o := Handle(store, event, freshId, failure, listing);
    if event.httpMethod == "PUT" && event.body.Some? && event.body.value.id.Some? {
      var p := event.body.value;
      var command := UpdateCommandFor(p.id.value, p.task, p.status);
      if command.Some? {
        assert o == match Update(store, command.value, failure)
                    case Failure(e) => ServerError(store, Store(e))
                    case Success(u) => Outcome(Respond(200, Object(u.attributes)), u.items);
      }
    }
  }

  /** PUT without `id` fails with the `KeyError`, whatever else the body
      carries, since the id is read before the fields. */
  lemma PutWithoutIdFails(store: map<string, Item>, event: Event, freshId: string,
                          failure: Option<string>, listing: seq<Item>)
    requires event.httpMethod == "PUT" && event.body.Some? && event.body.value.id.None?
    ensures Handle(store, event, freshId, failure, listing) == ServerError(store, MissingKey("id"))
  {
  }

  /** PUT sets exactly the fields the body sent on the record `id`
      (creating the record when there is none) and answers with just
      those fields' new values. */
  lemma PutSetsSentFields(store: map<string, Item>, event: Event, freshId: string, listing: seq<Item>)
    requires event.httpMethod == "PUT" && event.body.Some?
    requires var p := event.body.value; p.id.Some? && (p.task.Some? || p.status.Some?)
    ensures var p := event.body.value;
      var sent := SentFields(p.task, p.status);
      Handle(store, event, freshId, None, listing) ==
        Outcome(Respond(200, Object(sent)), store[p.id.value := Before(store, p.id.value) + sent])
  {
    var p := event.body.value;
    UpdateCommandSetsSentFields(p.id.value, p.task, p.status);
  }

  /** An update that does not send `task` leaves the record's `task` as it
      was (present with the same value, or absent), and the same holds for
      `status`; every other record is unchanged. */
  lemma PutLeavesUnsentFields(store: map<string, Item>, event: Event, freshId: string, listing: seq<Item>)
    requires event.httpMethod == "PUT" && event.body.Some?
    requires var p := event.body.value; p.id.Some? && (p.task.Some? || p.status.Some?)
    ensures var p := event.body.value;
      var next := Handle(store, event, freshId, None, listing).store;
      var before := Before(store, p.id.value);
      && p.id.value in next
      && (p.task.None? ==> ("task" in next[p.id.value] <==> "task" in before))
      && (p.task.None? && "task" in before ==> next[p.id.value]["task"] == before["task"])
      && (p.status.None? ==> ("status" in next[p.id.value] <==> "status" in before))
      && (p.status.None? && "status" in before ==> next[p.id.value]["status"] == before["status"])
      && (forall k :: k in store && k != p.id.value ==> k in next && next[k] == store[k])
  {
    PutSetsSentFields(store, event, freshId, listing);
  }

  /** The handler does not check that the record exists: a PUT of `status`
      alone for an unknown id creates a record holding only `id` and
      `status`. */
  lemma PutOnUnknownIdCreatesPartialRecord(store: map<string, Item>, event: Event, freshId: string,
                                           listing: seq<Item>)
    requires event.httpMethod == "PUT" && event.body.Some?
    requires var p := event.body.value; p.id.Some? && p.id.value !in store && p.task.None? && p.status.Some?
    ensures var p := event.body.value;
      Handle(store, event, freshId, None, listing).store ==
        store[p.id.value := map[KeyAttribute := p.id.value, "status" := p.status.value]]
  {
    var p := event.body.value;
    PutSetsSentFields(store, event, freshId, listing);
    assert Before(store, p.id.value) + SentFields(p.task, p.status)
        == map[KeyAttribute := p.id.value, "status" := p.status.value];
  }

  /** A literal `status` path anywhere among the actions makes their
      assignments fail, since `status` is a reserved word. */
  lemma {:induction false} LiteralStatusRefused(actions: seq<Action>, names: map<string, string>,
                                                values: map<string, string>, i: nat)
    requires i < |actions| && actions[i].path == "status"
    ensures Assignments(actions, names, values).Failure?
    decreases |actions|
  {
    StatusIsReserved();
    if i > 0 {
      LiteralStatusRefused(actions[1..], names, values, i - 1);
    }
  }

  /** Why the `#st` placeholder exists: the table refuses every command
      with a clause naming `status` literally, whatever its other clauses
      and placeholders. */
  lemma LiteralStatusIsRefused(cmd: UpdateCommand, actions: seq<Action>, i: nat)
    requires |actions| > 0 && forall j :: 0 <= j < |actions| ==> WellTokened(actions[j])
    requires cmd.updateExpression == Expression(actions)
    requires i < |actions| && actions[i].path == "status"
    ensures Interpret(cmd).Failure?
  {
    ParseExpression(actions);
    var names := if cmd.attributeNames.Some? then cmd.attributeNames.value else map[];
    LiteralStatusRefused(actions, names, cmd.attributeValues, i);
  }

  /** The one-clause command naming `status` literally is refused. */
  lemma LiteralStatusAloneIsRefused(itemId: string, status: string)
    ensures Interpret(UpdateCommand(itemId, "SET status = :s", map[":s" := status], None, "UPDATED_NEW")).Failure?
  {
    var one := [Action("status", ":s")];
    assert IsToken("status") && IsToken(":s");
    assert Render(one[0]) == "status = :s";
    assert RenderAll(one) == ["status = :s"];
    assert Expression(one) == "SET status = :s";
    LiteralStatusIsRefused(UpdateCommand(itemId, "SET status = :s", map[":s" := status], None, "UPDATED_NEW"),
                           one, 0);
  }

  lemma JoinPair(a: string, b: string)
    ensures Join(", ", [a, b]) == a + ", " + b
  {
    assert [a, b][1..] == [b];
  }

  /** Sending `task` as well does not help: the two-clause command with a
      literal `status` is refused too. */
  lemma LiteralStatusWithTaskIsRefused(itemId: string, task: string, status: string)
    ensures Interpret(UpdateCommand(itemId, "SET task = :t, status = :s",
                                    map[":t" := task, ":s" := status], None, "UPDATED_NEW")).Failure?
  {
    var two := [Action("task", ":t"), Action("status", ":s")];
    assert IsToken("status") && IsToken(":s") && IsToken("task") && IsToken(":t");
    assert Render(two[0]) == "task = :t" && Render(two[1]) == "status = :s";
    assert RenderAll(two) == ["task = :t", "status = :s"];
    JoinPair("task = :t", "status = :s");
    assert Expression(two) == "SET task = :t, status = :s";
    LiteralStatusIsRefused(UpdateCommand(itemId, "SET task = :t, status = :s",
                                         map[":t" := task, ":s" := status], None, "UPDATED_NEW"), two, 1);
  }

  lemma StatusIsReserved()
    ensures IsReserved("status")
  {
    assert Upper("status") == "STATUS";
  }

  // ----- DELETE -----

  /** DELETE removes the record `id` if there is one and always answers
      200 "Item deleted". */
  lemma DeleteRemovesRecord(store: map<string, Item>, event: Event, freshId: string, listing: seq<Item>)
    requires event.httpMethod == "DELETE" && event.body.Some? && event.body.value.id.Some?
    ensures Handle(store, event, freshId, None, listing) ==
      Outcome(Respond(200, Message("Item deleted")), store - {event.body.value.id.value})
  {
  }

  /** Deleting twice answers the same and leaves the same table as deleting once. */
  lemma DeleteIsIdempotent(store: map<string, Item>, event: Event, freshId: string, listing: seq<Item>)
    requires event.httpMethod == "DELETE" && event.body.Some? && event.body.value.id.Some?
    ensures var once := Handle(store, event, freshId, None, listing);
      Handle(once.store, event, freshId, None, listing) == once
  {
    var k := event.body.value.id.value;
    assert store - {k} - {k} == store - {k};
  }

  // ----- faults -----

  /** A failing table call becomes a 500 carrying the failure, and the
      table is left as it was. */
  lemma StoreFailureIsServerError(store: map<string, Item>, event: Event, freshId: string,
                                  description: string, listing: seq<Item>)
    requires CallsTable(event)
    ensures Handle(store, event, freshId, Some(description), listing) ==
      ServerError(store, Store(ServiceFault(description)))
  {
  }

  /** A body that is missing or not a JSON object is a 500 for every
      method that reads one, with the table left alone. */
  lemma InvalidBodyIsServerError(store: map<string, Item>, event: Event, freshId: string,
                                 failure: Option<string>, listing: seq<Item>)
    requires event.httpMethod in {"POST", "PUT", "DELETE"} && event.body.None?
    ensures Handle(store, event, freshId, failure, listing) == ServerError(store, InvalidBody)
  {
  }
}
