/** The part of DynamoDB's update-expression language that the handler
    uses: a `SET` expression of `path = :value` actions, separated by
    ", ", whose paths are either literal attribute names or `#name`
    placeholders and whose operands are `:value` placeholders.

    The handler builds such a command and the table interprets it; this
    module holds both the rendering (`", ".join`) and, as the table's
    side of the contract, the parser and the placeholder resolution. */
module UpdateExpression {
  import opened Wrappers

  /** The name of the table's partition key; a `SET` may not name it. */
  const KeyAttribute: string := "id"

  /** The excerpt of DynamoDB's reserved words that the model knows
      (upper case; a literal attribute name is compared case-insensitively). */
  const ReservedWords: set<string> :=
    {"DATA", "DATE", "KEY", "NAME", "SET", "STATUS", "TIMESTAMP", "TYPE", "USER", "VALUE"}

  /** One `SET` action: `path = operand`. */
  datatype Action = Action(path: string, operand: string)

  /** The keyword arguments the handler passes to `update_item`.
      `key` is the value of the key attribute `id`; `attributeNames` is
      `None` when `ExpressionAttributeNames` is not passed at all. */
  datatype UpdateCommand = UpdateCommand(
    key: string,
    updateExpression: string,
    attributeValues: map<string, string>,
    attributeNames: Option<map<string, string>>,
    returnValues: string)

  /** Python's `sep.join(parts)`. */
  function Join(sep: string, parts: seq<string>): string
  {
    if |parts| == 0 then ""
    else if |parts| == 1 then parts[0]
    else parts[0] + sep + Join(sep, parts[1..])
  }

  function Render(a: Action): string
  {
    a.path + " = " + a.operand
  }

  function RenderAll(actions: seq<Action>): (r: seq<string>)
    ensures |r| == |actions|
    ensures forall i :: 0 <= i < |actions| ==> r[i] == Render(actions[i])
  {
    if actions == [] then [] else [Render(actions[0])] + RenderAll(actions[1..])
  }

  /** The text of the expression that sets `actions`, in order. */
  function Expression(actions: seq<Action>): string
  {
    "SET " + Join(", ", RenderAll(actions))
  }

  // ----- reading an expression back -----

  predicate IsDelimiter(c: char)
  {
    c == ' ' || c == ',' || c == '='
  }

  predicate NoDelimiter(t: string)
  {
    forall i :: 0 <= i < |t| ==> !IsDelimiter(t[i])
  }

  /** A path or an operand: a non-empty run of non-delimiter characters. */
  predicate IsToken(t: string)
  {
    |t| > 0 && NoDelimiter(t)
  }

  predicate WellTokened(a: Action)
  {
    IsToken(a.path) && IsToken(a.operand)
  }

  /** The length of the longest prefix of `s` without a delimiter. */
  function TokenLength(s: string): (n: nat)
    ensures n <= |s|
    ensures NoDelimiter(s[..n])
    ensures n < |s| ==> IsDelimiter(s[n])
  {
    if |s| == 0 || IsDelimiter(s[0]) then 0
    else
      var m := TokenLength(s[1..]);
      assert s[..1 + m] == [s[0]] + s[1..][..m];
      1 + m
  }

  /** Reads `path = operand(, path = operand)*`. */
  function ParseActions(s: string): Option<seq<Action>>
    decreases |s|
  {
    var n := TokenLength(s);
    if n == 0 then None
    else
      var r := s[n..];
      if !(|r| >= 3 && r[..3] == " = ") then None
      else
        var r2 := r[3..];
        var m := TokenLength(r2);
        if m == 0 then None
        else
          var a := Action(s[..n], r2[..m]);
          var r3 := r2[m..];
          if r3 == [] then Some([a])
          else if |r3| >= 2 && r3[..2] == ", " then
            match ParseActions(r3[2..])
            case None => None
            case Some(rest) => Some([a] + rest)
          else None
  }

  /** Reads a `SET` update expression into its actions. */
  function Parse(expression: string): Option<seq<Action>>
  {
    if |expression| >= 4 && expression[..4] == "SET " then ParseActions(expression[4..])
    else None
  }

  lemma {:induction false} TokenBeforeDelimiter(t: string, rest: string)
    requires NoDelimiter(t)
    requires rest == [] || IsDelimiter(rest[0])
    ensures TokenLength(t + rest) == |t|
  {
    if |t| == 0 {
      assert t + rest == rest;
    } else {
      assert !IsDelimiter(t[0]);
      assert (t + rest)[1..] == t[1..] + rest;
      TokenBeforeDelimiter(t[1..], rest);
    }
  }

  /** The steps of `ParseActions` on a rendered action followed by `tail`. */
  lemma ParseRenderedSteps(a: Action, tail: string)
    requires WellTokened(a)
    requires tail == [] || IsDelimiter(tail[0])
    ensures var s := Render(a) + tail;
      var n := TokenLength(s);
      && n == |a.path| && s[..n] == a.path
      && |s[n..]| >= 3 && s[n..][..3] == " = "
      && var r2 := s[n..][3..];
      && TokenLength(r2) == |a.operand| && r2[..|a.operand|] == a.operand
      && r2[|a.operand|..] == tail
  {
    var s := Render(a) + tail;
    var afterPath := " = " + a.operand + tail;
    assert s == a.path + afterPath;
    TokenBeforeDelimiter(a.path, afterPath);
    assert s[|a.path|..] == afterPath;
    assert afterPath[3..] == a.operand + tail;
    TokenBeforeDelimiter(a.operand, tail);
  }

  lemma ParseRenderedLast(a: Action)
    requires WellTokened(a)
    ensures ParseActions(Render(a)) == Some([a])
  {
    ParseRenderedSteps(a, []);
    assert Render(a) + [] == Render(a);
  }

  lemma ParseRenderedHead(a: Action, rest: string)
    requires WellTokened(a)
    requires ParseActions(rest).Some?
    ensures ParseActions(Render(a) + ", " + rest) == Some([a] + ParseActions(rest).value)
  {
    var tail := ", " + rest;
    ParseRenderedSteps(a, tail);
    assert Render(a) + ", " + rest == Render(a) + tail;
    assert tail[..2] == ", " && tail[2..] == rest;
  }

  /** Joining rendered actions with ", " and reading the result back gives
      the actions again, in order. */
  lemma {:induction false} ParseJoined(actions: seq<Action>)
    requires |actions| > 0
    requires forall i :: 0 <= i < |actions| ==> WellTokened(actions[i])
    ensures ParseActions(Join(", ", RenderAll(actions))) == Some(actions)
  {
    var parts := RenderAll(actions);
    if |actions| == 1 {
      ParseRenderedLast(actions[0]);
      assert [actions[0]] == actions;
    } else {
      var rest := actions[1..];
      assert parts[1..] == RenderAll(rest);
      ParseJoined(rest);
      ParseRenderedHead(actions[0], Join(", ", RenderAll(rest)));
      assert [actions[0]] + rest == actions;
    }
  }

  /** Round trip: the expression that sets `actions` parses to `actions`. */
  lemma ParseExpression(actions: seq<Action>)
    requires |actions| > 0
    requires forall i :: 0 <= i < |actions| ==> WellTokened(actions[i])
    ensures Parse(Expression(actions)) == Some(actions)
  {
    var e := Expression(actions);
    assert e[..4] == "SET ";
    assert e[4..] == Join(", ", RenderAll(actions));
    ParseJoined(actions);
  }

  // ----- resolving placeholders -----

  function UpperChar(c: char): char
  {
    if 'a' <= c <= 'z' then (c as int - 'a' as int + 'A' as int) as char else c
  }

  function Upper(s: string): (r: string)
    ensures |r| == |s|
  {
    seq(|s|, i requires 0 <= i < |s| => UpperChar(s[i]))
  }

  predicate IsReserved(word: string)
  {
    Upper(word) in ReservedWords
  }

  predicate IsNamePlaceholder(p: string)
  {
    |p| > 0 && p[0] == '#'
  }

  predicate IsValuePlaceholder(p: string)
  {
    |p| > 0 && p[0] == ':'
  }

  /** The attribute a path addresses: a `#name` placeholder is looked up in
      `names`; a literal name must not be a reserved word. */
  function ResolvePath(path: string, names: map<string, string>): (r: Result<string, string>)
    ensures r.Success? && IsNamePlaceholder(path) ==> path in names && r.value == names[path]
    ensures r.Success? && !IsNamePlaceholder(path) ==> r.value == path && !IsReserved(path)
    ensures r.Failure? <==> (if IsNamePlaceholder(path) then path !in names else IsReserved(path))
  {
    if IsNamePlaceholder(path) then
      if path in names then Success(names[path])
      else Failure("An expression attribute name used in the document path is not defined")
    else if IsReserved(path) then Failure("Attribute name is a reserved keyword")
    else Success(path)
  }

  /** The attributes `actions` set and their new values. */
  function Assignments(actions: seq<Action>, names: map<string, string>, values: map<string, string>)
    : (r: Result<map<string, string>, string>)
    ensures r.Success? ==> KeyAttribute !in r.value
  {
    if actions == [] then Success(map[])
    else
      var a := actions[0];
      match ResolvePath(a.path, names)
      case Failure(e) => Failure(e)
      case Success(attribute) =>
        if !IsValuePlaceholder(a.operand) || a.operand !in values then
          Failure("An expression attribute value used in expression is not defined")
        else if attribute == KeyAttribute then
          Failure("Cannot update attribute id. This attribute is part of the key")
        else
          match Assignments(actions[1..], names, values)
          case Failure(e) => Failure(e)
          case Success(rest) =>
            if attribute in rest then Failure("Two document paths overlap")
            else Success(rest[attribute := values[a.operand]])
  }

  function NamePaths(actions: seq<Action>): set<string>
  {
    set i | 0 <= i < |actions| && IsNamePlaceholder(actions[i].path) :: actions[i].path
  }

  function Operands(actions: seq<Action>): set<string>
  {
    set i | 0 <= i < |actions| :: actions[i].operand
  }

  /** How the table reads an update command: the attributes it sets and
      their new values, or the text of the validation error it raises. */
  function Interpret(cmd: UpdateCommand): (r: Result<map<string, string>, string>)
    ensures r.Success? ==> KeyAttribute !in r.value
    ensures r.Success? ==> Parse(cmd.updateExpression).Some?
    ensures r.Success? ==> cmd.attributeNames != Some(map[]) && cmd.attributeValues != map[]
  {
    match Parse(cmd.updateExpression)
    case None => Failure("Invalid UpdateExpression: Syntax error")
    case Some(actions) =>
      var names := if cmd.attributeNames.Some? then cmd.attributeNames.value else map[];
      if cmd.attributeNames == Some(map[]) then
        Failure("ExpressionAttributeNames must not be empty")
      else if cmd.attributeValues == map[] then
        Failure("ExpressionAttributeValues must not be empty")
      else if !(names.Keys <= NamePaths(actions)) then
        Failure("Value provided in ExpressionAttributeNames unused in expressions")
      else if !(cmd.attributeValues.Keys <= Operands(actions)) then
        Failure("Value provided in ExpressionAttributeValues unused in expressions")
      else Assignments(actions, names, cmd.attributeValues)
  }

  /** A command that parses, passes a non-empty names map (or none) and
      a non-empty values map, and uses every placeholder it binds, is read
      as the assignments of its actions. */
  lemma InterpretAccepted(cmd: UpdateCommand, actions: seq<Action>, names: map<string, string>)
    requires Parse(cmd.updateExpression) == Some(actions)
    requires cmd.attributeNames == (if names == map[] then None else Some(names))
    requires cmd.attributeValues != map[]
    requires names.Keys <= NamePaths(actions)
    requires cmd.attributeValues.Keys <= Operands(actions)
    ensures Interpret(cmd) == Assignments(actions, names, cmd.attributeValues)
  {
  }
}
