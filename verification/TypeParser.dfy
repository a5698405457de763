/** What the parser of OpenAPI specifications makes of them: the data types and operations that `TypeFilter` filters. */
module TypeParser {
  import opened Common
  import opened TypeFilter

  datatype Failure = ValueError | NotImplementedError | RuntimeError

  /** An element of `anyOf` or `allOf`. */
  datatype Choice = Reference(uri: string) | OtherDictionary | NotADictionary

  /** The keys of a schema dictionary that the parser reads. `choices` is `anyOf` or, without it, `allOf`. */
  datatype Schema = Schema(
    uri: Option<string>, choices: Option<seq<Choice>>, kind: Option<string>, format: Option<string>,
    items: Option<Schema>, properties: seq<(string, Schema)>, described: bool)

  datatype Parameter = Parameter(name: string, place: string, schema: Option<Schema>)

  /** The body is the URI of its schema, or "". `numbered`: the code of the response is a number. */
  datatype Response = Response(numbered: bool, body: string)

  datatype Action = Action(tags: set<string>, body: string, parameters: seq<Parameter>, responses: seq<Response>)

  /** A path with its actions in the order get, put, post, delete. */
  datatype Path = Path(parameters: seq<Parameter>, actions: seq<Action>)

  datatype Spec = Spec(components: Option<seq<(string, Schema)>>, paths: Option<seq<Path>>)

  /** A data type together with those that are declared inside it. */
  datatype Made = Made(dataType: DataType, described: bool, more: seq<DataType>)

  datatype Field = Field(goType: string, more: seq<DataType>)

  datatype Fields = Fields(goTypes: seq<string>, more: seq<DataType>)

  datatype Parameters = Parameters(inPath: seq<string>, inQuery: seq<string>, more: seq<DataType>)

  /** Operations and the data types found with them. */
  datatype Parsed = Parsed(operations: seq<Operation>, types: seq<DataType>)

  // ----- names -----

  const SCHEMAS := "#/components/schemas/"

  const PRIMITIVES := {"string", "bool", "float32", "float64", "int32", "int64"}

  function Number(format: string): Option<string> {
    if format == "float" then Some("float32")
    else if format == "double" || format == "number" then Some("float64")
    else if format == "int32" then Some("int32")
    else if format == "int64" then Some("int64")
    else if format == "integer" then Some("float32")
    else None
  }

  function ReferencedName(uri: string): Result<string, Failure> {
    if uri == "" then Ok("")
    else if SCHEMAS <= uri then Ok(uri[|SCHEMAS|..])
    else Err(NotImplementedError)
  }

  function ChosenName(choices: seq<Choice>): Result<string, Failure> {
    if |choices| != 1 then Err(NotImplementedError)
    else match choices[0]
      case NotADictionary => Err(ValueError)
      case OtherDictionary => Err(NotImplementedError)
      case Reference(uri) => ReferencedName(uri)
  }

  predicate IsLetter(c: char) {
    'a' <= c <= 'z' || 'A' <= c <= 'Z'
  }

  function Upper(c: char): char {
    if 'a' <= c <= 'z' then c - 'a' + 'A' else c
  }

  function Lower(c: char): char {
    if 'A' <= c <= 'Z' then c - 'A' + 'a' else c
  }

  /** Letters that begin a word become capital, all others small; underscores and blanks go. */
  function Pascal(name: string): string {
    if name == "" then ""
    else
      var n, c := |name| - 1, name[|name| - 1];
      Pascal(name[..n]) + (if c == '_' || c == ' ' then ""
                           else if n > 0 && IsLetter(name[n - 1]) then [Lower(c)]
                           else [Upper(c)])
  }

  // ----- schemas -----

  function MakeObjectField(objectName: string, name: string, schema: Schema): Result<Field, Failure>
    decreases schema, 2, 0
  {
    if schema.uri.Some? then
      var goType :- ReferencedName(schema.uri.value);
      Ok(Field(goType, []))
    else if schema.choices.Some? then
      var goType :- ChosenName(schema.choices.value);
      Ok(Field(goType, []))
    else
      var made :- MakeDataTypes(objectName + Pascal(name), schema);
      var goType := made.dataType.goType;
      if goType in PRIMITIVES then
        if made.more != [] then Err(RuntimeError) else Ok(Field(goType, []))
      else if "[]" <= goType then Ok(Field(goType, made.more))
      else Ok(Field(made.dataType.name, made.more + [made.dataType]))
  }

  /** The fields from the i-th on, behind those made already. */
  function FieldsFrom(objectName: string, schema: Schema, i: nat, made: Fields): Result<Fields, Failure>
    requires i <= |schema.properties|
    decreases schema, 0, |schema.properties| - i
  {
    if i == |schema.properties| then Ok(made)
    else
      var field :- MakeObjectField(objectName, schema.properties[i].0, schema.properties[i].1);
      FieldsFrom(objectName, schema, i + 1, Fields(made.goTypes + [field.goType], made.more + field.more))
  }

  method MakeObjectFields(objectName: string, schema: Schema) returns (r: Result<Fields, Failure>)
    ensures r == FieldsFrom(objectName, schema, 0, Fields([], []))
  {
    var fields := Fields([], []);
    for i := 0 to |schema.properties|
      invariant FieldsFrom(objectName, schema, i, fields) == FieldsFrom(objectName, schema, 0, Fields([], []))
    {
      var (name, property) := schema.properties[i];
      var field :- MakeObjectField(objectName, name, property);
      fields := Fields(fields.goTypes + [field.goType], fields.more + field.more);
    }
    r := Ok(fields);
  }

  /** The name of the element type of an array, with the data types declared inside it. */
  function MakeItems(name: string, schema: Schema): Result<Field, Failure>
    decreases schema, 2, 0
  {
    if schema.uri.Some? then
      var goType :- ReferencedName(schema.uri.value);
      Ok(Field(goType, []))
    else
      var item :- MakeDataTypes(name + "Item", schema);
      if item.described || item.dataType.goType !in PRIMITIVES
      then Ok(Field(item.dataType.name, item.more + [item.dataType]))
      else Ok(Field(item.dataType.goType, item.more))
  }

  function MakeDataTypes(name: string, schema: Schema): Result<Made, Failure>
    decreases schema, 1, 0
  {
    if schema.kind.Some? then
      var kind := schema.kind.value;
      if kind == "string" then Ok(Made(DataType(name, "string", []), schema.described, []))
      else if kind == "boolean" then Ok(Made(DataType(name, "bool", []), schema.described, []))
      else if kind == "number" || kind == "integer" then
        var number := Number(if schema.format.Some? then schema.format.value else kind);
        if number.None? then Err(ValueError)
        else Ok(Made(DataType(name, number.value, []), schema.described, []))
      else if kind == "array" then
        if schema.items.None? then Err(ValueError)
        else
          var items :- MakeItems(name, schema.items.value);
          Ok(Made(DataType(name, "[]" + items.goType, []), schema.described, items.more))
      else if kind == "object" then
        var fields :- FieldsFrom(name, schema, 0, Fields([], []));
        Ok(Made(DataType(name, "struct", fields.goTypes), schema.described, fields.more))
      else Err(ValueError)
    else if schema.choices.Some? then
      var goType :- ChosenName(schema.choices.value);
      Ok(Made(DataType(name, goType, []), schema.described, []))
    else Ok(Made(DataType(name, "", []), schema.described, []))
  }

  /** The internal error of `MakeObjectField` cannot happen: what is parsed as a primitive has nothing inside. */
  lemma PrimitivesAreSimple(name: string, schema: Schema)
    requires MakeDataTypes(name, schema).Ok?
    ensures var made := MakeDataTypes(name, schema).value; made.dataType.goType in PRIMITIVES ==> made.more == []
  {
    hide MakeItems, FieldsFrom;
    if schema.kind == Some("array") {
      assert MakeDataTypes(name, schema).value.dataType.goType[0] == '[';
    }
  }

  lemma {:induction false} NeverInconsistent(name: string, schema: Schema)
    ensures MakeDataTypes(name, schema) != Err(RuntimeError)
    decreases schema, 1, 0
  {
    if schema.kind == Some("object") {
      FieldsNeverInconsistent(name, schema, 0, Fields([], []));
    } else if schema.kind == Some("array") && schema.items.Some? {
      NeverInconsistent(name + "Item", schema.items.value);
    }
  }

  lemma {:induction false} FieldNeverInconsistent(objectName: string, name: string, schema: Schema)
    ensures MakeObjectField(objectName, name, schema) != Err(RuntimeError)
    decreases schema, 2, 0
  {
    hide MakeDataTypes;
    NeverInconsistent(objectName + Pascal(name), schema);
    if MakeDataTypes(objectName + Pascal(name), schema).Ok? {
      PrimitivesAreSimple(objectName + Pascal(name), schema);
    }
  }

  lemma {:induction false} FieldsNeverInconsistent(objectName: string, schema: Schema, i: nat, made: Fields)
    requires i <= |schema.properties|
    ensures FieldsFrom(objectName, schema, i, made) != Err(RuntimeError)
    decreases schema, 0, |schema.properties| - i
  {
    hide MakeObjectField;
    if i < |schema.properties| {
      var (name, property) := schema.properties[i];
      FieldNeverInconsistent(objectName, name, property);
      var field := MakeObjectField(objectName, name, property);
      if field.Ok? {
        var next := Fields(made.goTypes + [field.value.goType], made.more + field.value.more);
        FieldsNeverInconsistent(objectName, schema, i + 1, next);
      }
    }
  }

  // ----- operations -----

  function ParametersFrom(parameters: seq<Parameter>, i: nat, made: Parameters): Result<Parameters, Failure>
    requires i <= |parameters|
    decreases |parameters| - i
  {
    if i == |parameters| then Ok(made)
    else
      var parameter := parameters[i];
      var field :- if parameter.schema.Some? then MakeObjectField("", parameter.name, parameter.schema.value)
                   else Ok(Field("string", []));
      var more := made.more + field.more;
      if parameter.place == "path" then
        ParametersFrom(parameters, i + 1, made.(inPath := made.inPath + [field.goType], more := more))
      else if parameter.place == "query" then
        ParametersFrom(parameters, i + 1, made.(inQuery := made.inQuery + [field.goType], more := more))
      else Err(NotImplementedError)
  }

  method ParseParameters(parameters: seq<Parameter>) returns (r: Result<Parameters, Failure>)
    ensures r == ParametersFrom(parameters, 0, Parameters([], [], []))
  {
    var inPath, inQuery, more := [], [], [];
    for i := 0 to |parameters|
      invariant ParametersFrom(parameters, i, Parameters(inPath, inQuery, more)) ==
                ParametersFrom(parameters, 0, Parameters([], [], []))
    {
      var parameter, goType := parameters[i], "string";
      if parameter.schema.Some? {
        var field :- MakeObjectField("", parameter.name, parameter.schema.value);
        goType, more := field.goType, more + field.more;
      } else {
        assert more + [] == more;
      }
      if parameter.place == "path" {
        inPath := inPath + [goType];
      } else if parameter.place == "query" {
        inQuery := inQuery + [goType];
      } else {
        return Err(NotImplementedError);
      }
    }
    r := Ok(Parameters(inPath, inQuery, more));
  }

  function ResponsesFrom(responses: seq<Response>, i: nat, made: seq<string>): Result<seq<string>, Failure>
    requires i <= |responses|
    decreases |responses| - i
  {
    if i == |responses| then Ok(made)
    else
      var body :- ReferencedName(responses[i].body);
      if responses[i].numbered then ResponsesFrom(responses, i + 1, made + [body]) else Err(ValueError)
  }

  method ParseResponses(responses: seq<Response>) returns (r: Result<seq<string>, Failure>)
    ensures r == ResponsesFrom(responses, 0, [])
  {
    var bodies: seq<string> := [];
    for i := 0 to |responses|
      invariant ResponsesFrom(responses, i, bodies) == ResponsesFrom(responses, 0, [])
    {
      var body :- ReferencedName(responses[i].body);
      if !responses[i].numbered {
        return Err(ValueError);
      }
      bodies := bodies + [body];
    }
    r := Ok(bodies);
  }

  function MakeOperation(action: Action, common: Parameters, made: Parsed): Result<Parsed, Failure> {
    var body :- ReferencedName(action.body);
    var own :- ParametersFrom(action.parameters, 0, Parameters([], [], []));
    var responses :- ResponsesFrom(action.responses, 0, []);
    var parameters := own.inPath + common.inPath + own.inQuery + common.inQuery;
    Ok(Parsed(made.operations + [Operation(action.tags, parameters, body, responses)], made.types + own.more))
  }

  function ActionsFrom(actions: seq<Action>, common: Parameters, i: nat, made: Parsed): Result<Parsed, Failure>
    requires i <= |actions|
    decreases |actions| - i
  {
    if i == |actions| then Ok(made)
    else
      var next :- MakeOperation(actions[i], common, made);
      ActionsFrom(actions, common, i + 1, next)
  }

  function OperationsOf(path: Path): Result<Parsed, Failure> {
    var common :- ParametersFrom(path.parameters, 0, Parameters([], [], []));
    ActionsFrom(path.actions, common, 0, Parsed([], common.more))
  }

  method MakeOperations(path: Path) returns (r: Result<Parsed, Failure>)
    ensures r == OperationsOf(path)
  {
    hide ParametersFrom, ResponsesFrom, ReferencedName;
    var common :- ParseParameters(path.parameters);
    var operations, types := [], common.more;
    for i := 0 to |path.actions|
      invariant ActionsFrom(path.actions, common, i, Parsed(operations, types)) == OperationsOf(path)
    {
      var action := path.actions[i];
      var body :- ReferencedName(action.body);
      var own :- ParseParameters(action.parameters);
      var inPath, inQuery := own.inPath + common.inPath, own.inQuery + common.inQuery;
      types := types + own.more;
      var bodies :- ParseResponses(action.responses);
      assert inPath + inQuery == own.inPath + common.inPath + own.inQuery + common.inQuery;
      operations := operations + [Operation(action.tags, inPath + inQuery, body, bodies)];
    }
    r := Ok(Parsed(operations, types));
  }

  // ----- the whole specification -----

  function ComponentsFrom(components: seq<(string, Schema)>, i: nat, made: seq<DataType>)
    : Result<seq<DataType>, Failure>
    requires i <= |components|
    decreases |components| - i
  {
    if i == |components| then Ok(made)
    else
      var next :- MakeDataTypes(components[i].0, components[i].1);
      ComponentsFrom(components, i + 1, made + next.more + [next.dataType])
  }

  function PathsFrom(paths: seq<Path>, i: nat, made: Parsed): Result<Parsed, Failure>
    requires i <= |paths|
    decreases |paths| - i
  {
    if i == |paths| then Ok(made)
    else
      var next :- OperationsOf(paths[i]);
      PathsFrom(paths, i + 1, Parsed(made.operations + next.operations, made.types + next.types))
  }

  function ApiOf(spec: Spec): Result<Parsed, Failure> {
    if spec.components.None? then Err(ValueError)
    else
      var types :- ComponentsFrom(spec.components.value, 0, []);
      if spec.paths.None? then Err(ValueError) else PathsFrom(spec.paths.value, 0, Parsed([], types))
  }

  method MakeApi(spec: Spec) returns (r: Result<Parsed, Failure>)
    ensures r == ApiOf(spec)
  {
    hide MakeDataTypes, OperationsOf;
    if spec.components.None? {
      return Err(ValueError);
    }
    var components, types := spec.components.value, [];
    for i := 0 to |components|
      invariant ComponentsFrom(components, i, types) == ComponentsFrom(components, 0, [])
    {
      var made :- MakeDataTypes(components[i].0, components[i].1);
      types := types + made.more;
      types := types + [made.dataType];
    }
    if spec.paths.None? {
      return Err(ValueError);
    }
    var paths, operations := spec.paths.value, [];
    for i := 0 to |paths|
      invariant PathsFrom(paths, i, Parsed(operations, types)) == ApiOf(spec)
    {
      var made :- MakeOperations(paths[i]);
      types, operations := types + made.types, operations + made.operations;
    }
    r := Ok(Parsed(operations, types));
  }

  // ----- what names are made -----

  /** A name that is not an array. The names of components consist of letters, digits, dots, dashes, underscores. */
  predicate Plain(name: string) {
    name != "" ==> name[0] != '['
  }

  predicate Named(name: string) {
    name != "" && Plain(name)
  }

  const BUILT_IN := PRIMITIVES + {"struct", ""}

  ghost function Declared(types: seq<DataType>): set<string> {
    set dt | dt in types :: dt.name
  }

  /** Of one pair of brackets at most, and built in or known. */
  ghost predicate Settled(name: string, known: set<string>) {
    SingleLevel(name) && (Base(name) in BUILT_IN || Base(name) in known)
  }

  ghost predicate TypeSettled(dt: DataType, known: set<string>) {
    Plain(dt.name) && Settled(dt.goType, known) && forall f :: f in dt.fields ==> Settled(f, known)
  }

  ghost predicate AllSettled(types: seq<DataType>, known: set<string>) {
    forall dt :: dt in types ==> TypeSettled(dt, known)
  }

  ghost predicate NamesSettled(names: seq<string>, known: set<string>) {
    forall n :: n in names ==> Settled(n, known)
  }

  ghost predicate UriIn(uri: string, names: set<string>) {
    ReferencedName(uri).Ok? ==> ReferencedName(uri).value in names
  }

  /** All that a schema refers to is among the names. */
  ghost predicate RefersTo(schema: Schema, names: set<string>) {
    && (schema.uri.Some? ==> UriIn(schema.uri.value, names))
    && (schema.choices.Some? ==>
          forall c :: c in schema.choices.value ==> c.Reference? ==> UriIn(c.uri, names))
    && (schema.items.Some? ==> RefersTo(schema.items.value, names))
    && (forall i :: 0 <= i < |schema.properties| ==> RefersTo(schema.properties[i].1, names))
  }

  ghost predicate AllPlain(names: set<string>) {
    forall n :: n in names ==> Plain(n)
  }

  lemma PlainIsSettled(name: string, known: set<string>)
    requires Plain(name) && name in known
    ensures Settled(name, known)
  {
  }

  lemma ArrayIsSettled(name: string, known: set<string>)
    requires Plain(name) && Settled(name, known)
    ensures Settled("[]" + name, known)
  {
    assert ("[]" + name)[..2] == "[]" && ("[]" + name)[2..] == name;
  }

  /** What is settled in two lists of declarations is settled in both together. */
  lemma StaysSettled(a: seq<DataType>, b: seq<DataType>, names: set<string>)
    requires AllSettled(a, names + Declared(a)) && AllSettled(b, names + Declared(b))
    ensures AllSettled(a + b, names + Declared(a + b))
  {
    hide SingleLevel, Base;
    assert Declared(a + b) == Declared(a) + Declared(b);
  }

  lemma NamesStaySettled(list: seq<string>, known: set<string>, more: set<string>)
    requires NamesSettled(list, known) && known <= more
    ensures NamesSettled(list, more)
  {
    hide SingleLevel, Base;
  }

  lemma WithItsOwn(types: seq<DataType>, dt: DataType, names: set<string>)
    requires AllSettled(types, names + Declared(types)) && TypeSettled(dt, names + Declared(types))
    ensures AllSettled(types + [dt], names + Declared(types + [dt])) && dt.name in Declared(types + [dt])
  {
    hide SingleLevel, Base;
    assert dt in types + [dt];
    assert Declared(types + [dt]) == Declared(types) + {dt.name};
  }

  lemma PrimitiveIsSettled(name: string, known: set<string>)
    requires name in BUILT_IN
    ensures Settled(name, known) && Plain(name)
  {
    assert Plain(name);
  }

  lemma {:induction false} FieldIsSettled(objectName: string, name: string, schema: Schema, names: set<string>)
    requires Named(objectName + Pascal(name)) && RefersTo(schema, names) && AllPlain(names)
    requires MakeObjectField(objectName, name, schema).Ok?
    ensures var field := MakeObjectField(objectName, name, schema).value;
            var known := names + Declared(field.more);
            Settled(field.goType, known) && AllSettled(field.more, known)
    decreases schema, 2, 0
  {
    hide Settled, AllSettled, TypeSettled, MakeDataTypes, Pascal;
    var field := MakeObjectField(objectName, name, schema).value;
    if schema.uri.Some? || schema.choices.Some? {
      PlainIsSettled(field.goType, names + Declared([]));
      NoneIsSettled(names + Declared([]));
    } else {
      TypesAreSettled(objectName + Pascal(name), schema, names);
      var made := MakeDataTypes(objectName + Pascal(name), schema).value;
      OfType(made.dataType, names + Declared(made.more));
      if field.more != made.more {
        WithItsOwn(made.more, made.dataType, names);
        PlainIsSettled(field.goType, names + Declared(field.more));
      }
    }
  }

  lemma NoneIsSettled(known: set<string>)
    ensures AllSettled([], known)
  {
  }

  lemma OfType(dt: DataType, known: set<string>)
    requires TypeSettled(dt, known)
    ensures Settled(dt.goType, known) && NamesSettled(dt.fields, known)
  {
    hide Settled;
  }

  lemma {:induction false} ItemsAreSettled(name: string, schema: Schema, names: set<string>)
    requires Named(name) && RefersTo(schema, names) && AllPlain(names) && MakeItems(name, schema).Ok?
    ensures var items := MakeItems(name, schema).value;
            var known := names + Declared(items.more);
            Plain(items.goType) && Settled(items.goType, known) && AllSettled(items.more, known)
    decreases schema, 2, 0
  {
    hide Settled, AllSettled, TypeSettled, MakeDataTypes;
    var items := MakeItems(name, schema).value;
    if schema.uri.Some? {
      PlainIsSettled(items.goType, names + Declared([]));
      NoneIsSettled(names + Declared([]));
    } else {
      TypesAreSettled(name + "Item", schema, names);
      var made := MakeDataTypes(name + "Item", schema).value;
      if items.more != made.more {
        WithItsOwn(made.more, made.dataType, names);
        PlainIsSettled(items.goType, names + Declared(items.more));
      } else {
        PrimitiveIsSettled(items.goType, names + Declared(items.more));
      }
    }
  }

  lemma {:induction false} FieldsAreSettled(
    objectName: string, schema: Schema, i: nat, made: Fields, names: set<string>)
    requires i <= |schema.properties| && Named(objectName) && RefersTo(schema, names) && AllPlain(names)
    requires NamesSettled(made.goTypes, names + Declared(made.more))
    requires AllSettled(made.more, names + Declared(made.more))
    requires FieldsFrom(objectName, schema, i, made).Ok?
    ensures var fields := FieldsFrom(objectName, schema, i, made).value;
            var known := names + Declared(fields.more);
            NamesSettled(fields.goTypes, known) && AllSettled(fields.more, known)
    decreases schema, 0, |schema.properties| - i
  {
    hide Settled, AllSettled, MakeObjectField, Pascal;
    if i < |schema.properties| {
      var (name, property) := schema.properties[i];
      FieldIsSettled(objectName, name, property, names);
      var field := MakeObjectField(objectName, name, property).value;
      OneMore(made.goTypes, made.more, field, names);
      StaysSettled(made.more, field.more, names);
      var next := Fields(made.goTypes + [field.goType], made.more + field.more);
      FieldsAreSettled(objectName, schema, i + 1, next, names);
    }
  }

  lemma OneMore(list: seq<string>, types: seq<DataType>, field: Field, names: set<string>)
    requires NamesSettled(list, names + Declared(types)) && Settled(field.goType, names + Declared(field.more))
    ensures NamesSettled(list + [field.goType], names + Declared(types + field.more))
  {
    hide SingleLevel, Base;
    assert Declared(types + field.more) == Declared(types) + Declared(field.more);
  }

  lemma {:induction false} TypesAreSettled(name: string, schema: Schema, names: set<string>)
    requires Named(name) && RefersTo(schema, names) && AllPlain(names)
    requires MakeDataTypes(name, schema).Ok?
    ensures var made := MakeDataTypes(name, schema).value;
            var known := names + Declared(made.more);
            && made.dataType.name == name
            && TypeSettled(made.dataType, known) && AllSettled(made.more, known)
    decreases schema, 1, 0
  {
    hide Settled, AllSettled, MakeItems, FieldsFrom;
    var made := MakeDataTypes(name, schema).value;
    NoneIsSettled(names + Declared([]));
    if schema.kind == Some("array") {
      ItemsAreSettled(name, schema.items.value, names);
      var items := MakeItems(name, schema.items.value).value;
      ArrayIsSettled(items.goType, names + Declared(items.more));
    } else if schema.kind == Some("object") {
      FieldsAreSettled(name, schema, 0, Fields([], []), names);
      PrimitiveIsSettled("struct", names + Declared(made.more));
    } else if schema.kind.Some? || schema.choices.None? {
      PrimitiveIsSettled(made.dataType.goType, names + Declared(made.more));
    } else {
      PlainIsSettled(made.dataType.goType, names + Declared(made.more));
    }
  }

  // ----- what names the operations and the whole API have -----

  ghost predicate ParameterRefersTo(p: Parameter, names: set<string>) {
    p.schema.Some? ==> Named(Pascal(p.name)) && RefersTo(p.schema.value, names)
  }

  ghost predicate ParametersReferTo(list: seq<Parameter>, names: set<string>) {
    forall p :: p in list ==> ParameterRefersTo(p, names)
  }

  ghost predicate BodyRefersTo(uri: string, names: set<string>) {
    uri != "" ==> UriIn(uri, names)
  }

  ghost predicate ActionRefersTo(a: Action, names: set<string>) {
    && BodyRefersTo(a.body, names) && ParametersReferTo(a.parameters, names)
    && forall r :: r in a.responses ==> BodyRefersTo(r.body, names)
  }

  ghost predicate PathRefersTo(p: Path, names: set<string>) {
    ParametersReferTo(p.parameters, names) && forall a :: a in p.actions ==> ActionRefersTo(a, names)
  }

  /** Components have names that are no arrays, and all references of the specification are among `names`. */
  ghost predicate SpecRefersTo(spec: Spec, names: set<string>) {
    && (spec.components.Some? ==>
          forall c :: c in spec.components.value ==> Named(c.0) && RefersTo(c.1, names))
    && (spec.paths.Some? ==> forall p :: p in spec.paths.value ==> PathRefersTo(p, names))
  }

  function NamesOf(op: Operation): seq<string> {
    op.parameters + [op.requestBody] + op.responses
  }

  ghost predicate OperationsSettled(operations: seq<Operation>, known: set<string>) {
    forall op :: op in operations ==> NamesSettled(NamesOf(op), known)
  }

  ghost predicate ParsedSettled(parsed: Parsed, names: set<string>) {
    var known := names + Declared(parsed.types);
    AllSettled(parsed.types, known) && OperationsSettled(parsed.operations, known)
  }

  ghost predicate ParametersSettled(made: Parameters, names: set<string>) {
    var known := names + Declared(made.more);
    AllSettled(made.more, known) && NamesSettled(made.inPath, known) && NamesSettled(made.inQuery, known)
  }

  lemma MoreDeclared(a: seq<DataType>, b: seq<DataType>)
    ensures Declared(a + b) == Declared(a) + Declared(b)
  {
  }

  lemma BodyIsSettled(uri: string, names: set<string>, known: set<string>)
    requires BodyRefersTo(uri, names) && AllPlain(names) && names <= known && ReferencedName(uri).Ok?
    ensures Settled(ReferencedName(uri).value, known)
  {
    hide Settled;
    if uri == "" {
      PrimitiveIsSettled("", known);
    } else {
      PlainIsSettled(ReferencedName(uri).value, known);
    }
  }

  lemma {:induction false} ParametersAreSettled(list: seq<Parameter>, i: nat, made: Parameters, names: set<string>)
    requires i <= |list| && ParametersReferTo(list, names) && AllPlain(names)
    requires ParametersSettled(made, names) && ParametersFrom(list, i, made).Ok?
    ensures ParametersSettled(ParametersFrom(list, i, made).value, names)
    decreases |list| - i
  {
    hide Settled, AllSettled, NamesSettled, MakeObjectField, Pascal, RefersTo;
    if i < |list| {
      var p := list[i];
      assert ParameterRefersTo(p, names);
      var field := Field("string", []);
      if p.schema.Some? {
        assert "" + Pascal(p.name) == Pascal(p.name);
        FieldIsSettled("", p.name, p.schema.value, names);
        field := MakeObjectField("", p.name, p.schema.value).value;
      } else {
        NoneIsSettled(names + Declared([]));
        PrimitiveIsSettled("string", names + Declared([]));
      }
      var more := made.more + field.more;
      StaysSettled(made.more, field.more, names);
      MoreDeclared(made.more, field.more);
      OneMore(made.inPath, made.more, field, names);
      OneMore(made.inQuery, made.more, field, names);
      NamesStaySettled(made.inPath, names + Declared(made.more), names + Declared(more));
      NamesStaySettled(made.inQuery, names + Declared(made.more), names + Declared(more));
      if p.place == "path" {
        ParametersAreSettled(list, i + 1, made.(inPath := made.inPath + [field.goType], more := more), names);
      } else {
        ParametersAreSettled(list, i + 1, made.(inQuery := made.inQuery + [field.goType], more := more), names);
      }
    }
  }

  lemma {:induction false} ResponsesAreSettled(
    responses: seq<Response>, i: nat, made: seq<string>, names: set<string>, known: set<string>)
    requires i <= |responses| && AllPlain(names) && names <= known
    requires forall r :: r in responses ==> BodyRefersTo(r.body, names)
    requires NamesSettled(made, known) && ResponsesFrom(responses, i, made).Ok?
    ensures NamesSettled(ResponsesFrom(responses, i, made).value, known)
    decreases |responses| - i
  {
    hide Settled, ReferencedName;
    if i < |responses| {
      BodyIsSettled(responses[i].body, names, known);
      ResponsesAreSettled(responses, i + 1, made + [ReferencedName(responses[i].body).value], names, known);
    }
  }

  lemma OperationsStaySettled(operations: seq<Operation>, known: set<string>, more: set<string>)
    requires OperationsSettled(operations, known) && known <= more
    ensures OperationsSettled(operations, more)
  {
    hide NamesSettled;
    forall op | op in operations ensures NamesSettled(NamesOf(op), more) {
      NamesStaySettled(NamesOf(op), known, more);
    }
  }

  /** A list of settled lists is settled. */
  lemma AllTogether(a: seq<string>, b: seq<string>, c: seq<string>, d: seq<string>, known: set<string>)
    requires NamesSettled(a, known) && NamesSettled(b, known) && NamesSettled(c, known) && NamesSettled(d, known)
    ensures NamesSettled(a + b + c + d, known)
  {
    hide Settled;
  }

  lemma OperationIsSettled(action: Action, common: Parameters, made: Parsed, names: set<string>)
    requires ActionRefersTo(action, names) && AllPlain(names) && ParametersSettled(common, names)
    requires ParsedSettled(made, names) && Declared(common.more) <= Declared(made.types)
    requires MakeOperation(action, common, made).Ok?
    ensures var next := MakeOperation(action, common, made).value;
            ParsedSettled(next, names) && Declared(made.types) <= Declared(next.types)
  {
    hide Settled, AllSettled, NamesSettled, ParametersFrom, ResponsesFrom, Declared, BodyRefersTo, ReferencedName;
    NothingYet(names);
    ParametersAreSettled(action.parameters, 0, Parameters([], [], []), names);
    var own := ParametersFrom(action.parameters, 0, Parameters([], [], [])).value;
    var next := MakeOperation(action, common, made).value;
    StaysSettled(made.types, own.more, names);
    MoreDeclared(made.types, own.more);
    var known := names + Declared(next.types);
    OperationsStaySettled(made.operations, names + Declared(made.types), known);
    NamesStaySettled(own.inPath, names + Declared(own.more), known);
    NamesStaySettled(own.inQuery, names + Declared(own.more), known);
    NamesStaySettled(common.inPath, names + Declared(common.more), known);
    NamesStaySettled(common.inQuery, names + Declared(common.more), known);
    AllTogether(own.inPath, common.inPath, own.inQuery, common.inQuery, known);
    BodyIsSettled(action.body, names, known);
    NoNames(known);
    ResponsesAreSettled(action.responses, 0, [], names, known);
    OneMoreOperation(made.operations, next.operations[|made.operations|], known);
  }

  lemma NoNames(known: set<string>)
    ensures NamesSettled([], known)
  {
  }

  lemma NothingYet(names: set<string>)
    ensures ParametersSettled(Parameters([], [], []), names)
  {
  }

  lemma OneMoreOperation(operations: seq<Operation>, op: Operation, known: set<string>)
    requires OperationsSettled(operations, known) && NamesSettled(op.parameters, known)
    requires Settled(op.requestBody, known) && NamesSettled(op.responses, known)
    ensures OperationsSettled(operations + [op], known)
  {
    hide Settled;
  }

  lemma {:induction false} ActionsAreSettled(
    actions: seq<Action>, common: Parameters, i: nat, made: Parsed, names: set<string>)
    requires i <= |actions| && (forall a :: a in actions ==> ActionRefersTo(a, names)) && AllPlain(names)
    requires ParametersSettled(common, names) && ParsedSettled(made, names)
    requires Declared(common.more) <= Declared(made.types) && ActionsFrom(actions, common, i, made).Ok?
    ensures ParsedSettled(ActionsFrom(actions, common, i, made).value, names)
    decreases |actions| - i
  {
    hide ParsedSettled, ParametersSettled, MakeOperation, ActionRefersTo;
    if i < |actions| {
      OperationIsSettled(actions[i], common, made, names);
      ActionsAreSettled(actions, common, i + 1, MakeOperation(actions[i], common, made).value, names);
    }
  }

  lemma PathIsSettled(path: Path, names: set<string>)
    requires PathRefersTo(path, names) && AllPlain(names) && OperationsOf(path).Ok?
    ensures ParsedSettled(OperationsOf(path).value, names)
  {
    hide AllSettled, NamesSettled, ParametersFrom, ActionsFrom;
    NothingYet(names);
    ParametersAreSettled(path.parameters, 0, Parameters([], [], []), names);
    var common := ParametersFrom(path.parameters, 0, Parameters([], [], [])).value;
    ActionsAreSettled(path.actions, common, 0, Parsed([], common.more), names);
  }

  lemma {:induction false} ComponentsAreSettled(
    components: seq<(string, Schema)>, i: nat, made: seq<DataType>, names: set<string>)
    requires i <= |components| && AllPlain(names)
    requires forall c :: c in components ==> Named(c.0) && RefersTo(c.1, names)
    requires AllSettled(made, names + Declared(made)) && ComponentsFrom(components, i, made).Ok?
    ensures var types := ComponentsFrom(components, i, made).value;
            && AllSettled(types, names + Declared(types)) && Declared(made) <= Declared(types)
            && forall j :: i <= j < |components| ==> components[j].0 in Declared(types)
    decreases |components| - i
  {
    hide AllSettled, TypeSettled, MakeDataTypes, Plain, RefersTo;
    if i < |components| {
      var (name, schema) := components[i];
      assert components[i] in components;
      TypesAreSettled(name, schema, names);
      var next := MakeDataTypes(name, schema).value;
      WithItsOwn(next.more, next.dataType, names);
      StaysSettled(made, next.more + [next.dataType], names);
      var list := made + next.more + [next.dataType];
      assert list == made + (next.more + [next.dataType]);
      MoreDeclared(made, next.more + [next.dataType]);
      ComponentsAreSettled(components, i + 1, list, names);
    }
  }

  lemma ParsedTogether(a: Parsed, b: Parsed, names: set<string>)
    requires ParsedSettled(a, names) && ParsedSettled(b, names)
    ensures ParsedSettled(Parsed(a.operations + b.operations, a.types + b.types), names)
    ensures Declared(a.types) <= Declared(a.types + b.types)
  {
    hide AllSettled, NamesSettled, Declared;
    StaysSettled(a.types, b.types, names);
    MoreDeclared(a.types, b.types);
    var known := names + Declared(a.types + b.types);
    OperationsStaySettled(a.operations, names + Declared(a.types), known);
    OperationsStaySettled(b.operations, names + Declared(b.types), known);
  }

  lemma {:induction false} PathsAreSettled(paths: seq<Path>, i: nat, made: Parsed, names: set<string>)
    requires i <= |paths| && (forall p :: p in paths ==> PathRefersTo(p, names)) && AllPlain(names)
    requires ParsedSettled(made, names) && PathsFrom(paths, i, made).Ok?
    ensures ParsedSettled(PathsFrom(paths, i, made).value, names)
    ensures Declared(made.types) <= Declared(PathsFrom(paths, i, made).value.types)
    decreases |paths| - i
  {
    hide ParsedSettled, OperationsOf, PathRefersTo, Declared;
    if i < |paths| {
      PathIsSettled(paths[i], names);
      var next := OperationsOf(paths[i]).value;
      ParsedTogether(made, next, names);
      PathsAreSettled(paths, i + 1, Parsed(made.operations + next.operations, made.types + next.types), names);
    }
  }

  ghost function ComponentNames(spec: Spec): set<string> {
    if spec.components.None? then {} else set c | c in spec.components.value :: c.0
  }

  /** Every name in the API is an array of one level at most, and built in, referred to by the specification, or
      declared in the API; so are all names of components. */
  lemma ApiIsSettled(spec: Spec, names: set<string>)
    requires SpecRefersTo(spec, names) && AllPlain(names) && ApiOf(spec).Ok?
    ensures ParsedSettled(ApiOf(spec).value, names)
    ensures ComponentNames(spec) <= Declared(ApiOf(spec).value.types)
  {
    hide AllSettled, NamesSettled, RefersTo, PathRefersTo, ComponentsFrom, PathsFrom, Plain, Declared;
    var components := spec.components.value;
    NoneIsSettled(names + Declared([]));
    ComponentsAreSettled(components, 0, [], names);
    var types := ComponentsFrom(components, 0, []).value;
    forall n | n in ComponentNames(spec) ensures n in Declared(types) {
      var c :| c in components && c.0 == n;
      var j :| 0 <= j < |components| && components[j] == c;
    }
    PathsAreSettled(spec.paths.value, 0, Parsed([], types), names);
  }

  /** So the filter's result is the least closed set for every API that the parser makes. */
  lemma MadeIsOneLevel(spec: Spec, names: set<string>, operations: seq<Operation>)
    requires SpecRefersTo(spec, names) && AllPlain(names) && ApiOf(spec).Ok?
    requires forall op :: op in operations ==> op in ApiOf(spec).value.operations
    ensures OneLevel(ApiOf(spec).value.types, Roots(operations))
  {
    hide SpecRefersTo, ApiOf, SingleLevel, Base;
    ApiIsSettled(spec, names);
    forall t | t in Roots(operations) ensures SingleLevel(t) {
      var op :| op in operations && t in Signature(op);
      assert t in NamesOf(op);
    }
  }

  // ----- the filtered API of a specification -----

  /** The declaration that counts for its name, the last one. */
  ghost predicate Counts(types: seq<DataType>, dt: DataType) {
    dt.name in ByName(types, |types|) && ByName(types, |types|)[dt.name] == dt
  }

  /** Every name that is used is built in or declared. */
  ghost predicate Whole(types: seq<DataType>, operations: seq<Operation>) {
    && (forall dt :: dt in types && Counts(types, dt) ==> TypeSettled(dt, Declared(types)))
    && (forall t :: t in Roots(operations) ==> Settled(t, Declared(types)))
  }

  lemma RootsAreSettled(operations: seq<Operation>, known: set<string>, t: string)
    requires OperationsSettled(operations, known) && t in Roots(operations)
    ensures Settled(t, known)
  {
    hide Settled;
    var op :| op in operations && t in Signature(op);
    assert t in NamesOf(op);
  }

  lemma NeededAreSettled(types: seq<DataType>, roots: set<string>, required: set<string>, known: set<string>)
    requires IsLeastClosed(types, roots, required) && AllSettled(types, known)
    requires forall t :: t in roots ==> Settled(t, known)
    ensures forall t :: t in required ==> Settled(t, known)
  {
    hide References, Settled, AllSettled;
    var settled := set t | t in required && Settled(t, known);
    forall t | t in settled ensures Base(t) in settled && forall r :: r in References(types, t) ==> r in settled {
      ElementIsSettled(t, known);
      ReferencesAreSettled(types, t, known);
    }
    assert Closed(types, roots, settled);
  }

  lemma ElementIsSettled(name: string, known: set<string>)
    requires Settled(name, known)
    ensures Settled(Base(name), known)
  {
    hide Base;
  }

  lemma ReferencesAreSettled(types: seq<DataType>, name: string, known: set<string>)
    requires AllSettled(types, known)
    ensures forall r :: r in References(types, name) ==> Settled(r, known)
  {
    hide Settled, Base;
    if Base(name) in ByName(types, |types|) {
      DeclaredByName(types, |types|, Base(name));
    }
  }

  lemma SettledInKept(types: seq<DataType>, roots: set<string>, required: set<string>, name: string)
    requires Closed(types, roots, required) && name in required && Settled(name, Declared(types))
    ensures Settled(name, Declared(KeptTypes(types, required, |types|)))
  {
    hide References, SingleLevel, Base;
    if dt :| dt in types && dt.name == Base(name) {
      assert types[..|types|] == types;
      KeptAreRequired(types, required, |types|, dt);
    }
  }

  lemma PlainHasNoElements(name: string)
    requires Plain(name)
    ensures Base(name) == name
  {
  }

  /** What a kept declaration that counts refers to is required. */
  lemma KeptRefersToRequired(types: seq<DataType>, roots: set<string>, required: set<string>, dt: DataType)
    requires Closed(types, roots, required) && dt in KeptTypes(types, required, |types|) && Plain(dt.name)
    requires Counts(KeptTypes(types, required, |types|), dt)
    ensures dt in types && dt.name in required && forall r :: r in [dt.goType] + dt.fields ==> r in required
  {
    hide Base;
    PlainHasNoElements(dt.name);
    assert types[..|types|] == types;
    KeptAreRequired(types, required, |types|, dt);
    LastDeclaration(types, required, |types|, dt.name);
    LastIsThere(types, |types|, dt);
    assert References(types, dt.name) == [dt.goType] + dt.fields;
  }

  lemma {:induction false} LastIsThere(types: seq<DataType>, n: nat, dt: DataType)
    requires n <= |types| && dt in types[..n]
    ensures dt.name in ByName(types, n)
  {
    if types[n - 1] != dt {
      assert types[..n] == types[..n - 1] + [types[n - 1]];
      LastIsThere(types, n - 1, dt);
    }
  }

  lemma KeptIsSettled(types: seq<DataType>, roots: set<string>, required: set<string>, dt: DataType)
    requires Closed(types, roots, required) && forall t :: t in required ==> Settled(t, Declared(types))
    requires AllSettled(types, Declared(types)) && dt in KeptTypes(types, required, |types|)
    requires Counts(KeptTypes(types, required, |types|), dt)
    ensures TypeSettled(dt, Declared(KeptTypes(types, required, |types|)))
  {
    hide Settled, Counts, Closed;
    assert types[..|types|] == types;
    KeptAreRequired(types, required, |types|, dt);
    KeptRefersToRequired(types, roots, required, dt);
    forall r | r in [dt.goType] + dt.fields ensures Settled(r, Declared(KeptTypes(types, required, |types|))) {
      SettledInKept(types, roots, required, r);
    }
    assert dt.goType in [dt.goType] + dt.fields;
    assert forall f :: f in dt.fields ==> f in [dt.goType] + dt.fields;
  }

  lemma FilteredIsWhole(types: seq<DataType>, operations: seq<Operation>, kept: seq<Operation>, required: set<string>)
    requires AllSettled(types, Declared(types)) && OperationsSettled(operations, Declared(types))
    requires forall op :: op in kept ==> op in operations
    requires IsLeastClosed(types, Roots(kept), required)
    ensures Whole(KeptTypes(types, required, |types|), kept)
  {
    hide Settled, TypeSettled, AllSettled, Closed, Roots, Counts, Declared;
    OfSome(operations, kept, Declared(types));
    forall t | t in Roots(kept) ensures Settled(t, Declared(types)) {
      RootsAreSettled(kept, Declared(types), t);
    }
    NeededAreSettled(types, Roots(kept), required, Declared(types));
    var types' := KeptTypes(types, required, |types|);
    forall dt | dt in types' && Counts(types', dt) ensures TypeSettled(dt, Declared(types')) {
      KeptIsSettled(types, Roots(kept), required, dt);
    }
    forall t | t in Roots(kept) ensures Settled(t, Declared(types')) {
      RootIsRequired(types, Roots(kept), required, t);
      SettledInKept(types, Roots(kept), required, t);
    }
  }

  lemma RootIsRequired(types: seq<DataType>, roots: set<string>, required: set<string>, t: string)
    requires Closed(types, roots, required) && t in roots
    ensures t in required
  {
  }

  lemma OfSome(operations: seq<Operation>, some: seq<Operation>, known: set<string>)
    requires OperationsSettled(operations, known) && forall op :: op in some ==> op in operations
    ensures OperationsSettled(some, known)
  {
    hide NamesSettled;
  }

  lemma {:induction false} KeptAreOperations(operations: seq<Operation>, tags: set<string>, n: nat)
    requires n <= |operations|
    ensures forall op :: op in KeptOperations(operations, tags, n) ==> op in operations
  {
    if n > 0 {
      KeptAreOperations(operations, tags, n - 1);
    }
  }

  /** Parses a specification and, when tags are given, keeps what they need. When all references of the specification
      name components, and components and parameters have names that are no arrays, every name in the result is built
      in or declared in it. */
  method Generate(spec: Spec, tags: set<string>) returns (r: Result<Api, Failure>)
    ensures ApiOf(spec).Err? ==> r == Err(ApiOf(spec).error)
    ensures ApiOf(spec).Ok? ==> r.Ok? && fresh(r.value)
    ensures r.Ok? ==> var all := ApiOf(spec).value.operations;
              r.value.operations == if tags == {} then all else KeptOperations(all, tags, |all|)
    ensures r.Ok? && SpecRefersTo(spec, ComponentNames(spec)) ==> Whole(r.value.dataTypes, r.value.operations)
  {
    hide SpecRefersTo, Whole, Roots, IsLeastClosed, OneLevel, ApiOf, ComponentNames, ParsedSettled;
    var made :- MakeApi(spec);
    var api := new Api(made.types, made.operations);
    if SpecRefersTo(spec, ComponentNames(spec)) {
      ParsedIsWhole(spec);
    }
    if tags != {} {
      ghost var required := api.FilterOperations(tags);
      KeptAreOperations(made.operations, tags, |made.operations|);
      if SpecRefersTo(spec, ComponentNames(spec)) {
        FilteredSpecIsWhole(spec, api.operations, required);
      }
    }
    r := Ok(api);
  }

  lemma ComponentsArePlain(spec: Spec)
    requires SpecRefersTo(spec, ComponentNames(spec))
    ensures AllPlain(ComponentNames(spec))
  {
    hide PathRefersTo, RefersTo;
  }

  lemma ApiKnowsAll(spec: Spec)
    requires SpecRefersTo(spec, ComponentNames(spec)) && ApiOf(spec).Ok?
    ensures var api := ApiOf(spec).value;
            AllSettled(api.types, Declared(api.types)) && OperationsSettled(api.operations, Declared(api.types))
  {
    hide SpecRefersTo, ApiOf, ComponentNames, AllSettled, OperationsSettled, AllPlain, Declared;
    ComponentsArePlain(spec);
    ApiIsSettled(spec, ComponentNames(spec));
    var types := ApiOf(spec).value.types;
    assert ComponentNames(spec) + Declared(types) == Declared(types);
  }

  lemma ParsedIsWhole(spec: Spec)
    requires SpecRefersTo(spec, ComponentNames(spec)) && ApiOf(spec).Ok?
    ensures Whole(ApiOf(spec).value.types, ApiOf(spec).value.operations)
  {
    hide SpecRefersTo, ApiOf, Settled, Roots, OperationsSettled, Declared, TypeSettled;
    ApiKnowsAll(spec);
    var api := ApiOf(spec).value;
    forall t | t in Roots(api.operations) ensures Settled(t, Declared(api.types)) {
      RootsAreSettled(api.operations, Declared(api.types), t);
    }
  }

  lemma FilteredSpecIsWhole(spec: Spec, kept: seq<Operation>, required: set<string>)
    requires SpecRefersTo(spec, ComponentNames(spec)) && ApiOf(spec).Ok?
    requires forall op :: op in kept ==> op in ApiOf(spec).value.operations
    requires OneLevel(ApiOf(spec).value.types, Roots(kept)) ==>
               IsLeastClosed(ApiOf(spec).value.types, Roots(kept), required)
    ensures var types := ApiOf(spec).value.types; Whole(KeptTypes(types, required, |types|), kept)
  {
    hide SpecRefersTo, ApiOf, Settled, Roots, OperationsSettled, AllSettled, Declared, Whole, IsLeastClosed, OneLevel,
      ComponentNames, AllPlain;
    ComponentsArePlain(spec);
    MadeIsOneLevel(spec, ComponentNames(spec), kept);
    ApiKnowsAll(spec);
    FilteredIsWhole(ApiOf(spec).value.types, ApiOf(spec).value.operations, kept, required);
  }
}
