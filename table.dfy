/** The DynamoDB table `TodoTable` as the handler sees it: a map from the
    value of the key attribute `id` to the stored item, each item a map
    from attribute names to values.

    Every call takes `failure`: when it is `Some(description)`, the call
    fails for a reason outside the request (network, throttling,
    permissions) and the table is left as it was, since each call is
    atomic. */
module Table {
  import opened Wrappers
  import opened UpdateExpression

  type Item = map<string, string>

  datatype StoreFault =
    | ValidationException(message: string)
    | ServiceFault(description: string)

  /** What `update_item` gives back: the new table and the returned attributes. */
  datatype Updated = Updated(items: map<string, Item>, attributes: Item)

  /** Every item is stored under the value of its own `id` attribute. */
  predicate KeysMatchIds(items: map<string, Item>)
  {
    forall k :: k in items ==> KeyAttribute in items[k] && items[k][KeyAttribute] == k
  }

  /** `listing` is the table's contents as a sequence, in the table's own
      order: as long as the table, and holding exactly its items. */
  predicate Enumerates(listing: seq<Item>, items: map<string, Item>)
  {
    && |listing| == |items|
    && (forall i :: 0 <= i < |listing| ==> listing[i] in items.Values)
    && (forall k :: k in items ==> items[k] in listing)
  }

  /** `put_item`: stores `item` under its `id`, replacing any item there. */
  function Put(items: map<string, Item>, item: Item, failure: Option<string>)
    : (r: Result<map<string, Item>, StoreFault>)
    ensures r.Success? <==> failure.None? && KeyAttribute in item
    ensures r.Success? ==> r.value.Keys == items.Keys + {item[KeyAttribute]}
    ensures r.Success? ==> r.value[item[KeyAttribute]] == item
    ensures r.Success? ==> forall k :: k in items && k != item[KeyAttribute] ==> r.value[k] == items[k]
    ensures r.Success? && KeysMatchIds(items) ==> KeysMatchIds(r.value)
  {
    if failure.Some? then Failure(ServiceFault(failure.value))
    else if KeyAttribute !in item then
      Failure(ValidationException("One or more parameter values were invalid: Missing the key id in the item"))
    else Success(items[item[KeyAttribute] := item])
  }

  /** The item an update starts from: the stored one, or (DynamoDB's upsert)
      an item holding only the key. */
  function Before(items: map<string, Item>, key: string): (r: Item)
    ensures KeysMatchIds(items) ==> KeyAttribute in r && r[KeyAttribute] == key
  {
    if key in items then items[key] else map[KeyAttribute := key]
  }

  /** `update_item`: applies the command's `SET` actions to the item with
      the command's key, creating it when it is absent, and returns the new
      values of the attributes it set (`ReturnValues` "UPDATED_NEW", the
      only setting the model knows). */
  function Update(items: map<string, Item>, cmd: UpdateCommand, failure: Option<string>)
    : (r: Result<Updated, StoreFault>)
    ensures r.Success? <==> failure.None? && Interpret(cmd).Success? && cmd.returnValues == "UPDATED_NEW"
    ensures r.Success? ==>
      r.value.items == items[cmd.key := Before(items, cmd.key) + Interpret(cmd).value]
    ensures r.Success? ==> r.value.attributes == Interpret(cmd).value
    ensures r.Success? && KeysMatchIds(items) ==> KeysMatchIds(r.value.items)
  {
    if failure.Some? then Failure(ServiceFault(failure.value))
    else
      match Interpret(cmd)
      case Failure(message) => Failure(ValidationException(message))
      case Success(setValues) =>
        if cmd.returnValues != "UPDATED_NEW" then
          Failure(ValidationException("ReturnValues other than UPDATED_NEW are not part of this model"))
        else
          UpsertKeepsIds(items, cmd.key, setValues);
          Success(Updated(items[cmd.key := Before(items, cmd.key) + setValues], setValues))
  }

  /** An upsert that does not set the key attribute keeps every item under its own id. */
  lemma UpsertKeepsIds(items: map<string, Item>, key: string, setValues: Item)
    requires KeyAttribute !in setValues
    ensures KeysMatchIds(items) ==> KeysMatchIds(items[key := Before(items, key) + setValues])
  {
    if KeysMatchIds(items) {
      var after := Before(items, key) + setValues;
      assert KeyAttribute in after && after[KeyAttribute] == key;
    }
  }

  /** `delete_item`: removes the item with this key, if there is one. */
  function Delete(items: map<string, Item>, key: string, failure: Option<string>)
    : (r: Result<map<string, Item>, StoreFault>)
    ensures r.Success? <==> failure.None?
    ensures r.Success? ==> r.value.Keys == items.Keys - {key}
    ensures r.Success? ==> forall k :: k in r.value ==> r.value[k] == items[k]
    ensures r.Success? && KeysMatchIds(items) ==> KeysMatchIds(r.value)
  {
    if failure.Some? then Failure(ServiceFault(failure.value))
    else Success(items - {key})
  }

  class TodoTable {
    var items: map<string, Item>
    /** How many calls have been made on the table. */
    ghost var calls: nat

    ghost predicate Valid()
      reads this
    {
      KeysMatchIds(items)
    }

    constructor ()
      ensures Valid() && items == map[] && calls == 0
    {
      items := map[];
      calls := 0;
    }

    /** `scan`: the items in an order the table chooses. */
    method Scan(failure: Option<string>) returns (r: Result<seq<Item>, StoreFault>)
      requires Valid()
      modifies this
      ensures items == old(items) && calls == old(calls) + 1
      ensures failure.Some? ==> r == Failure(ServiceFault(failure.value))
      ensures failure.None? ==> r.Success? && Enumerates(r.value, items)
    {
      calls := calls + 1;
      if failure.Some? {
        return Failure(ServiceFault(failure.value));
      }
      var contents := items;
      var pending := contents.Keys;
      var listed: seq<Item> := [];
      while pending != {}
        invariant pending <= contents.Keys
        invariant |listed| + |pending| == |contents|
        invariant forall i :: 0 <= i < |listed| ==> listed[i] in contents.Values
        invariant forall k :: k in contents && k !in pending ==> contents[k] in listed
        decreases pending
      {
        var k :| k in pending;
        listed := listed + [contents[k]];
        pending := pending - {k};
      }
      return Success(listed);
    }

    method PutItem(item: Item, failure: Option<string>) returns (r: Option<StoreFault>)
      requires Valid()
      modifies this
      ensures Valid() && calls == old(calls) + 1
      ensures match Put(old(items), item, failure)
              case Success(next) => r.None? && items == next
              case Failure(e) => r == Some(e) && items == old(items)
    {
      calls := calls + 1;
      match Put(items, item, failure)
      case Success(next) => items := next; r := None;
      case Failure(e) => r := Some(e);
    }

    method UpdateItem(cmd: UpdateCommand, failure: Option<string>) returns (r: Result<Item, StoreFault>)
      requires Valid()
      modifies this
      ensures Valid() && calls == old(calls) + 1
      ensures match Update(old(items), cmd, failure)
              case Success(u) => r == Success(u.attributes) && items == u.items
              case Failure(e) => r == Failure(e) && items == old(items)
    {
      calls := calls + 1;
      match Update(items, cmd, failure)
      case Success(u) => items := u.items; r := Success(u.attributes);
      case Failure(e) => r := Failure(e);
    }

    method DeleteItem(key: string, failure: Option<string>) returns (r: Option<StoreFault>)
      requires Valid()
      modifies this
      ensures Valid() && calls == old(calls) + 1
      ensures match Delete(old(items), key, failure)
              case Success(next) => r.None? && items == next
              case Failure(e) => r == Some(e) && items == old(items)
    {
      calls := calls + 1;
      match Delete(items, key, failure)
      case Success(next) => items := next; r := None;
      case Failure(e) => r := Some(e);
    }
  }
}
