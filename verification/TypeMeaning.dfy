/** What the parser's declarations mean: each expresses its schema, at every depth, and each operation its action. */
module TypeMeaning {
  import opened Common
  import opened TypeFilter
  import opened TypeParser

  // ----- what a type name stands for -----

  const SIMPLE := {"string", "boolean", "number", "integer"}

  /** The format of a number, or its kind. */
  function FormatOf(schema: Schema): string
    requires schema.kind.Some?
  {
    if schema.format.Some? then schema.format.value else schema.kind.value
  }

  ghost predicate IsSimple(schema: Schema) {
    schema.kind.Some? && schema.kind.value in SIMPLE
  }

  /** The built-in type of a schema that is a text, a truth value or a number. */
  ghost predicate BuiltIn(goType: string, schema: Schema)
    requires IsSimple(schema)
  {
    var kind := schema.kind.value;
    && (kind == "string" ==> goType == "string")
    && (kind == "boolean" ==> goType == "bool")
    && (kind == "number" || kind == "integer" ==>
          && goType in {"float32", "float64", "int32", "int64"}
          && (goType == "float32" <==> FormatOf(schema) in {"float", "integer"})
          && (goType == "float64" <==> FormatOf(schema) in {"double", "number"})
          && (goType == "int32" <==> FormatOf(schema) == "int32")
          && (goType == "int64" <==> FormatOf(schema) == "int64"))
  }

  /** A reference is its type's name behind the prefix of all schemas; no reference, no name. */
  ghost predicate Refers(name: string, uri: string) {
    if uri == "" then name == "" else uri == "#/components/schemas/" + name
  }

  ghost predicate Chooses(name: string, choices: seq<Choice>) {
    |choices| == 1 && choices[0].Reference? && Refers(name, choices[0].uri)
  }

  /** Some declaration with this name expresses the schema. */
  ghost predicate Stands(name: string, schema: Schema, types: seq<DataType>)
    decreases schema, 2
  {
    exists dt :: dt in types && dt.name == name && Expresses(dt, schema, types)
  }

  /** The declaration says what the schema says: an object's fields in order, each expressing its property. */
  ghost predicate Expresses(dt: DataType, schema: Schema, types: seq<DataType>)
    decreases schema, 1
  {
    if schema.kind.None? then
      dt.fields == [] && if schema.choices.Some? then Chooses(dt.goType, schema.choices.value) else dt.goType == ""
    else if IsSimple(schema) then dt.fields == [] && BuiltIn(dt.goType, schema)
    else if schema.kind.value == "array" then dt.fields == [] && IsArray(dt.goType, dt.name, schema, types)
    else
      && schema.kind.value == "object" && dt.goType == "struct" && |dt.fields| == |schema.properties|
      && forall i :: 0 <= i < |dt.fields| ==>
          var (field, property) := schema.properties[i];
          IsField(dt.fields[i], dt.name + Pascal(field), property, types)
  }

  /** Brackets and the type of the items, which has the array's name with "Item" if it has one of its own. */
  ghost predicate IsArray(goType: string, name: string, schema: Schema, types: seq<DataType>)
    decreases schema, 0
  {
    && |goType| >= 2 && goType[..2] == "[]" && schema.items.Some?
    && IsItem(goType[2..], name + "Item", schema.items.value, types)
  }

  /** The built-in type of an item stands for itself, unless the item has a description of its own. */
  ghost predicate IsItem(goType: string, name: string, schema: Schema, types: seq<DataType>)
    decreases schema, 3
  {
    if schema.uri.Some? then Refers(goType, schema.uri.value)
    else if schema.described then goType == name && Stands(name, schema, types)
    else if IsSimple(schema) then BuiltIn(goType, schema)
    else if schema.kind.None? && schema.choices.Some? then
      if exists builtIn :: builtIn in PRIMITIVES && Chooses(builtIn, schema.choices.value)
      then Chooses(goType, schema.choices.value)
      else goType == name && Stands(name, schema, types)
    else goType == name && Stands(name, schema, types)
  }

  /** Fields refer, have built-in types or are arrays; other types have the object's and the field's name. */
  ghost predicate IsField(goType: string, name: string, schema: Schema, types: seq<DataType>)
    decreases schema, 3
  {
    if schema.uri.Some? then Refers(goType, schema.uri.value)
    else if schema.choices.Some? then Chooses(goType, schema.choices.value)
    else if IsSimple(schema) then BuiltIn(goType, schema)
    else if schema.kind == Some("array") then IsArray(goType, name, schema, types)
    else goType == name && Stands(name, schema, types)
  }

  // ----- the declarations mean what the schemas say -----

  ghost predicate Among(some: seq<DataType>, types: seq<DataType>) {
    forall dt :: dt in some ==> dt in types
  }

  lemma ReferencedExactly(uri: string)
    ensures ReferencedName(uri).Ok? ==> Refers(ReferencedName(uri).value, uri)
    ensures ReferencedName(uri).Ok? <==> exists name :: Refers(name, uri)
    ensures ReferencedName(uri).Err? ==> ReferencedName(uri) == Err(NotImplementedError)
  {
    if ReferencedName(uri).Ok? {
      assert Refers(ReferencedName(uri).value, uri);
    }
  }

  lemma ChosenExactly(choices: seq<Choice>)
    ensures ChosenName(choices).Ok? ==> Chooses(ChosenName(choices).value, choices)
    ensures ChosenName(choices).Ok? <==> exists name :: Chooses(name, choices)
    ensures ChosenName(choices) == Err(ValueError) <==> |choices| == 1 && choices[0].NotADictionary?
    ensures ChosenName(choices) != Err(RuntimeError)
  {
    if |choices| == 1 && choices[0].Reference? {
      ReferencedExactly(choices[0].uri);
      if name :| Refers(name, choices[0].uri) {
        assert Chooses(name, choices);
      }
    }
    if ChosenName(choices).Ok? {
      assert Chooses(ChosenName(choices).value, choices);
    }
  }

  /** There is one reference that a name can be. */
  lemma ChosenIsUnique(a: string, b: string, choices: seq<Choice>)
    requires Chooses(a, choices) && Chooses(b, choices)
    ensures a == b
  {
    var uri := choices[0].uri;
    if uri != "" {
      assert uri[|SCHEMAS|..] == a && uri[|SCHEMAS|..] == b;
    }
  }

  lemma {:induction false} Extended(objectName: string, schema: Schema, i: nat, made: Fields)
    requires i <= |schema.properties| && FieldsFrom(objectName, schema, i, made).Ok?
    ensures var fields := FieldsFrom(objectName, schema, i, made).value;
            && made.goTypes <= fields.goTypes && Among(made.more, fields.more)
            && |fields.goTypes| == |made.goTypes| + |schema.properties| - i
    decreases |schema.properties| - i
  {
    hide MakeObjectField;
    if i < |schema.properties| {
      var field := MakeObjectField(objectName, schema.properties[i].0, schema.properties[i].1).value;
      Extended(objectName, schema, i + 1, Fields(made.goTypes + [field.goType], made.more + field.more));
    }
  }

  lemma {:induction false} FieldsExpress(
    objectName: string, schema: Schema, i: nat, made: Fields, types: seq<DataType>)
    requires i <= |schema.properties| && |made.goTypes| == i && FieldsFrom(objectName, schema, i, made).Ok?
    requires Among(FieldsFrom(objectName, schema, i, made).value.more, types)
    ensures var fields := FieldsFrom(objectName, schema, i, made).value;
            && |fields.goTypes| == |schema.properties|
            && forall j :: i <= j < |schema.properties| ==>
                var (field, property) := schema.properties[j];
                IsField(fields.goTypes[j], objectName + Pascal(field), property, types)
    decreases schema, 0, |schema.properties| - i
  {
    hide IsField, MakeObjectField, Pascal;
    if i < |schema.properties| {
      var (name, property) := schema.properties[i];
      var field := MakeObjectField(objectName, name, property).value;
      var next := Fields(made.goTypes + [field.goType], made.more + field.more);
      Extended(objectName, schema, i + 1, next);
      FieldExpresses(objectName, name, property, types);
      FieldsExpress(objectName, schema, i + 1, next, types);
      assert FieldsFrom(objectName, schema, i, made).value.goTypes[i] == next.goTypes[i];
    }
  }

  lemma {:induction false} FieldExpresses(objectName: string, name: string, schema: Schema, types: seq<DataType>)
    requires MakeObjectField(objectName, name, schema).Ok?
    requires Among(MakeObjectField(objectName, name, schema).value.more, types)
    ensures IsField(MakeObjectField(objectName, name, schema).value.goType, objectName + Pascal(name), schema, types)
    decreases schema, 2, 0
  {
    hide MakeDataTypes, Expresses, IsArray, Pascal, BuiltIn;
    if schema.uri.Some? {
      ReferencedExactly(schema.uri.value);
    } else if schema.choices.Some? {
      ChosenExactly(schema.choices.value);
    } else {
      var made := MakeDataTypes(objectName + Pascal(name), schema).value;
      KindOfMade(objectName + Pascal(name), schema);
      DeclarationExpresses(objectName + Pascal(name), schema, types);
      OfExpressed(made.dataType, schema, types);
      var field := MakeObjectField(objectName, name, schema).value;
      if !IsSimple(schema) && schema.kind != Some("array") {
        assert made.dataType.goType in {"struct", ""};
        assert "struct"[0] != "[]"[0] && !("[]" <= made.dataType.goType);
        assert made.dataType.goType !in PRIMITIVES;
        assert field.more[|made.more|] == made.dataType;
      }
    }
  }

  /** Which schemas make built-in types and which make arrays. */
  lemma KindOfMade(name: string, schema: Schema)
    requires MakeDataTypes(name, schema).Ok?
    ensures var made := MakeDataTypes(name, schema).value; var goType := made.dataType.goType;
            && made.dataType.name == name && made.described == schema.described
            && (IsSimple(schema) ==> goType in PRIMITIVES && made.more == [])
            && (schema.kind == Some("array") ==> "[]" <= goType && goType !in PRIMITIVES)
            && (schema.kind == Some("object") ==> goType == "struct")
            && (schema.kind.None? && schema.choices.None? ==> goType == "")
  {
    hide MakeItems, FieldsFrom;
    if schema.kind == Some("array") {
      assert MakeDataTypes(name, schema).value.dataType.goType[0] == '[';
    }
  }

  lemma OfExpressed(dt: DataType, schema: Schema, types: seq<DataType>)
    requires Expresses(dt, schema, types)
    ensures IsSimple(schema) ==> BuiltIn(dt.goType, schema)
    ensures schema.kind == Some("array") ==> IsArray(dt.goType, dt.name, schema, types)
    ensures schema.kind.None? && schema.choices.Some? ==> Chooses(dt.goType, schema.choices.value)
    ensures schema.kind.None? || schema.kind.value in SIMPLE + {"array", "object"}
  {
    hide BuiltIn, IsArray, IsField, Chooses;
  }

  lemma {:induction false} ItemExpresses(name: string, schema: Schema, types: seq<DataType>)
    requires MakeItems(name, schema).Ok? && Among(MakeItems(name, schema).value.more, types)
    ensures IsItem(MakeItems(name, schema).value.goType, name + "Item", schema, types)
    decreases schema, 2, 0
  {
    hide MakeDataTypes, Expresses, IsArray, BuiltIn, Chooses;
    if schema.uri.Some? {
      ReferencedExactly(schema.uri.value);
    } else {
      var made := MakeDataTypes(name + "Item", schema).value;
      KindOfMade(name + "Item", schema);
      DeclarationExpresses(name + "Item", schema, types);
      OfExpressed(made.dataType, schema, types);
      if !schema.described && schema.kind.None? && schema.choices.Some? {
        if b :| b in PRIMITIVES && Chooses(b, schema.choices.value) {
          ChosenIsUnique(b, made.dataType.goType, schema.choices.value);
        }
      }
    }
  }

  /** Whatever is declared together with it, a declaration expresses the schema that it is made of. */
  lemma {:induction false} DeclarationExpresses(name: string, schema: Schema, types: seq<DataType>)
    requires MakeDataTypes(name, schema).Ok? && Among(MakeDataTypes(name, schema).value.more, types)
    ensures MakeDataTypes(name, schema).value.dataType.name == name
    ensures Expresses(MakeDataTypes(name, schema).value.dataType, schema, types)
    decreases schema, 1, 0
  {
    hide MakeItems, FieldsFrom, IsItem, IsField, Pascal;
    if schema.kind == Some("array") {
      ItemExpresses(name, schema.items.value, types);
      var goType := MakeItems(name, schema.items.value).value.goType;
      assert ("[]" + goType)[..2] == "[]" && ("[]" + goType)[2..] == goType;
    } else if schema.kind == Some("object") {
      FieldsExpress(name, schema, 0, Fields([], []), types);
    } else if schema.kind.None? && schema.choices.Some? {
      ChosenExactly(schema.choices.value);
    }
  }

  // ----- which schemas fail, and how -----

  const FORMATS := {"float", "double", "number", "int32", "int64", "integer"}

  ghost predicate UriFault(uri: string, e: Failure) {
    e == NotImplementedError && forall name :: !Refers(name, uri)
  }

  ghost predicate ChoiceFault(choices: seq<Choice>, e: Failure) {
    if |choices| == 1 && choices[0].Reference? then UriFault(choices[0].uri, e)
    else if |choices| == 1 && choices[0].NotADictionary? then e == ValueError
    else e == NotImplementedError
  }

  /** A declaration of the schema fails; of an object, the first property that fails decides. */
  ghost predicate Fault(schema: Schema, e: Failure)
    decreases schema, 0
  {
    if schema.kind.None? then schema.choices.Some? && ChoiceFault(schema.choices.value, e)
    else if schema.kind.value in {"string", "boolean"} then false
    else if IsSimple(schema) then FormatOf(schema) !in FORMATS && e == ValueError
    else if schema.kind.value == "array" && schema.items.Some? then
      if schema.items.value.uri.Some? then UriFault(schema.items.value.uri.value, e) else Fault(schema.items.value, e)
    else if schema.kind.value == "object" then
      exists i | 0 <= i < |schema.properties| ::
        FieldFault(schema.properties[i].1, e) && forall j | 0 <= j < i :: Sound(schema.properties[j].1)
    else e == ValueError
  }

  ghost predicate FieldFault(schema: Schema, e: Failure)
    decreases schema, 1
  {
    if schema.uri.Some? then UriFault(schema.uri.value, e)
    else if schema.choices.Some? then ChoiceFault(schema.choices.value, e)
    else Fault(schema, e)
  }

  ghost predicate Sound(schema: Schema)
    decreases schema, 2
  {
    forall e :: !FieldFault(schema, e)
  }

  lemma UriFails(uri: string, e: Failure)
    ensures ReferencedName(uri) == Err(e) <==> UriFault(uri, e)
  {
    ReferencedExactly(uri);
  }

  lemma ChoiceFails(choices: seq<Choice>, e: Failure)
    ensures ChosenName(choices) == Err(e) <==> ChoiceFault(choices, e)
  {
    if |choices| == 1 && choices[0].Reference? {
      UriFails(choices[0].uri, e);
    }
  }

  /** From the i-th property on, the first that fails decides. */
  lemma {:induction false} FieldsFail(objectName: string, schema: Schema, i: nat, made: Fields, e: Failure)
    requires i <= |schema.properties|
    ensures FieldsFrom(objectName, schema, i, made) == Err(e) <==>
            exists k | i <= k < |schema.properties| ::
              FieldFault(schema.properties[k].1, e) && forall j | i <= j < k :: Sound(schema.properties[j].1)
    decreases schema, 0, |schema.properties| - i
  {
    hide MakeObjectField, FieldFault;
    if i < |schema.properties| {
      var (name, property) := schema.properties[i];
      var field := MakeObjectField(objectName, name, property);
      forall d ensures field == Err(d) <==> FieldFault(property, d) {
        FieldFails(objectName, name, property, d);
      }
      if field.Ok? {
        assert Sound(property);
        var next := Fields(made.goTypes + [field.value.goType], made.more + field.value.more);
        FieldsFail(objectName, schema, i + 1, next, e);
      } else {
        assert !Sound(property);
        assert FieldFault(schema.properties[i].1, field.error);
      }
    }
  }

  lemma {:induction false} FieldFails(objectName: string, name: string, schema: Schema, e: Failure)
    ensures MakeObjectField(objectName, name, schema) == Err(e) <==> FieldFault(schema, e)
    decreases schema, 2, 0
  {
    hide MakeDataTypes, Fault, UriFault, ChoiceFault, Pascal;
    if schema.uri.Some? {
      UriFails(schema.uri.value, e);
    } else if schema.choices.Some? {
      ChoiceFails(schema.choices.value, e);
    } else {
      Fails(objectName + Pascal(name), schema, e);
      if MakeDataTypes(objectName + Pascal(name), schema).Ok? {
        PrimitivesAreSimple(objectName + Pascal(name), schema);
      }
    }
  }

  /** Whether and how a schema fails does not depend on the name. */
  lemma {:induction false} Fails(name: string, schema: Schema, e: Failure)
    ensures MakeDataTypes(name, schema) == Err(e) <==> Fault(schema, e)
    decreases schema, 1, 0
  {
    hide FieldsFrom, UriFault, ChoiceFault, FieldFault, Sound;
    if schema.kind == Some("object") {
      FieldsFail(name, schema, 0, Fields([], []), e);
    } else if schema.kind == Some("array") && schema.items.Some? {
      var items := schema.items.value;
      if items.uri.Some? {
        UriFails(items.uri.value, e);
      } else {
        Fails(name + "Item", items, e);
      }
    } else if schema.kind.None? && schema.choices.Some? {
      ChoiceFails(schema.choices.value, e);
    }
  }

  // ----- operations -----

  /** The parameters in the path or in the query, in order. */
  function Placed(parameters: seq<Parameter>, place: string): seq<Parameter> {
    if parameters == [] then []
    else (if parameters[0].place == place then [parameters[0]] else []) + Placed(parameters[1..], place)
  }

  ghost predicate IsParameter(goType: string, parameter: Parameter, types: seq<DataType>) {
    if parameter.schema.None? then goType == "string"
    else IsField(goType, Pascal(parameter.name), parameter.schema.value, types)
  }

  ghost predicate AreParameters(goTypes: seq<string>, parameters: seq<Parameter>, types: seq<DataType>) {
    |goTypes| == |parameters| && forall i :: 0 <= i < |goTypes| ==> IsParameter(goTypes[i], parameters[i], types)
  }

  /** An operation has its action's tags, bodies and parameters: those in the path before those in the query, and
      before those that are common to its path's actions its own. */
  ghost predicate IsOperation(op: Operation, action: Action, path: Path, types: seq<DataType>) {
    && op.tags == action.tags && Refers(op.requestBody, action.body) && |op.responses| == |action.responses|
    && (forall i :: 0 <= i < |op.responses| ==> Refers(op.responses[i], action.responses[i].body))
    && AreParameters(op.parameters,
                     Placed(action.parameters, "path") + Placed(path.parameters, "path") +
                     Placed(action.parameters, "query") + Placed(path.parameters, "query"), types)
  }

  lemma JoinedParameters(
    a: seq<string>, b: seq<string>, ps: seq<Parameter>, qs: seq<Parameter>, types: seq<DataType>)
    requires AreParameters(a, ps, types) && AreParameters(b, qs, types)
    ensures AreParameters(a + b, ps + qs, types)
  {
    hide IsParameter;
  }

  /** What is made of the parameters from the i-th on stands behind what was made before. */
  lemma {:induction false} ParametersMade(list: seq<Parameter>, i: nat, made: Parameters, types: seq<DataType>)
    requires i <= |list| && ParametersFrom(list, i, made).Ok?
    requires Among(ParametersFrom(list, i, made).value.more, types)
    ensures var r := ParametersFrom(list, i, made).value;
            && Among(made.more, r.more) && made.inPath <= r.inPath && made.inQuery <= r.inQuery
            && AreParameters(r.inPath[|made.inPath|..], Placed(list[i..], "path"), types)
            && AreParameters(r.inQuery[|made.inQuery|..], Placed(list[i..], "query"), types)
    decreases |list| - i
  {
    hide MakeObjectField, IsField, Pascal;
    if i < |list| {
      var p := list[i];
      var field := if p.schema.Some? then MakeObjectField("", p.name, p.schema.value).value else Field("string", []);
      var next := made.(more := made.more + field.more);
      next := if p.place == "path" then next.(inPath := made.inPath + [field.goType])
              else next.(inQuery := made.inQuery + [field.goType]);
      ParametersMade(list, i + 1, next, types);
      if p.schema.Some? {
        FieldExpresses("", p.name, p.schema.value, types);
        assert "" + Pascal(p.name) == Pascal(p.name);
      }
      var r := ParametersFrom(list, i, made).value;
      assert list[i..] == [p] + list[i + 1..];
      var goType, rest := field.goType, list[i + 1..];
      if p.place == "path" {
        OneMoreParameter(goType, p, |made.inPath|, r.inPath, Placed(rest, "path"), types);
      } else {
        OneMoreParameter(goType, p, |made.inQuery|, r.inQuery, Placed(rest, "query"), types);
      }
    }
  }

  lemma OneMoreParameter(
    goType: string, p: Parameter, n: nat, after: seq<string>, rest: seq<Parameter>, types: seq<DataType>)
    requires IsParameter(goType, p, types)
    requires n < |after| && after[n] == goType && AreParameters(after[n + 1..], rest, types)
    ensures AreParameters(after[n..], [p] + rest, types)
  {
    hide IsParameter;
    assert after[n..] == [goType] + after[n + 1..];
    JoinedParameters([goType], after[n + 1..], [p], rest, types);
  }

  lemma {:induction false} ResponsesMade(responses: seq<Response>, i: nat, made: seq<string>)
    requires i <= |responses| && |made| == i && ResponsesFrom(responses, i, made).Ok?
    ensures var bodies := ResponsesFrom(responses, i, made).value;
            && |bodies| == |responses| && made <= bodies
            && forall j :: i <= j < |bodies| ==> Refers(bodies[j], responses[j].body)
    decreases |responses| - i
  {
    hide ReferencedName, Refers;
    if i < |responses| {
      var body := ReferencedName(responses[i].body).value;
      ReferencedExactly(responses[i].body);
      ResponsesMade(responses, i + 1, made + [body]);
      assert ResponsesFrom(responses, i, made).value[i] == body;
    }
  }

  lemma OperationMade(action: Action, path: Path, common: Parameters, made: Parsed, types: seq<DataType>)
    requires ParametersFrom(path.parameters, 0, Parameters([], [], [])) == Ok(common) && Among(common.more, types)
    requires MakeOperation(action, common, made).Ok? && Among(MakeOperation(action, common, made).value.types, types)
    ensures var next := MakeOperation(action, common, made).value;
            && |next.operations| == |made.operations| + 1 && made.operations <= next.operations
            && IsOperation(next.operations[|made.operations|], action, path, types) && Among(made.types, next.types)
  {
    hide ParametersFrom, ResponsesFrom, ReferencedName, AreParameters, Refers, Placed;
    var own := ParametersFrom(action.parameters, 0, Parameters([], [], [])).value;
    ParametersMade(action.parameters, 0, Parameters([], [], []), types);
    ParametersMade(path.parameters, 0, Parameters([], [], []), types);
    assert action.parameters[0..] == action.parameters && path.parameters[0..] == path.parameters;
    assert own.inPath[0..] == own.inPath && own.inQuery[0..] == own.inQuery;
    assert common.inPath[0..] == common.inPath && common.inQuery[0..] == common.inQuery;
    var ps, qs := Placed(action.parameters, "path"), Placed(path.parameters, "path");
    JoinedParameters(own.inPath, common.inPath, ps, qs, types);
    JoinedParameters(own.inPath + common.inPath, own.inQuery, ps + qs, Placed(action.parameters, "query"), types);
    JoinedParameters(own.inPath + common.inPath + own.inQuery, common.inQuery,
                     ps + qs + Placed(action.parameters, "query"), Placed(path.parameters, "query"), types);
    ReferencedExactly(action.body);
    ResponsesMade(action.responses, 0, []);
  }

  lemma {:induction false} ActionsMade(path: Path, common: Parameters, i: nat, made: Parsed, types: seq<DataType>)
    requires ParametersFrom(path.parameters, 0, Parameters([], [], [])) == Ok(common) && Among(common.more, types)
    requires i <= |path.actions| && ActionsFrom(path.actions, common, i, made).Ok?
    requires Among(ActionsFrom(path.actions, common, i, made).value.types, types)
    ensures var r := ActionsFrom(path.actions, common, i, made).value; var n := |made.operations|;
            && Among(made.types, r.types) && made.operations <= r.operations
            && |r.operations| == n + |path.actions| - i
            && forall j :: i <= j < |path.actions| ==>
                 IsOperation(r.operations[n + j - i], path.actions[j], path, types)
    decreases |path.actions| - i
  {
    hide ParametersFrom, MakeOperation, IsOperation;
    if i < |path.actions| {
      var next := MakeOperation(path.actions[i], common, made).value;
      ActionsMade(path, common, i + 1, next, types);
      OperationMade(path.actions[i], path, common, made, types);
    }
  }

  lemma PathMade(path: Path, types: seq<DataType>)
    requires OperationsOf(path).Ok? && Among(OperationsOf(path).value.types, types)
    ensures var operations := OperationsOf(path).value.operations;
            && |operations| == |path.actions|
            && forall j :: 0 <= j < |operations| ==> IsOperation(operations[j], path.actions[j], path, types)
  {
    hide ParametersFrom, ActionsFrom, IsOperation;
    var common := ParametersFrom(path.parameters, 0, Parameters([], [], [])).value;
    OnlyGrows(path, common, 0, Parsed([], common.more));
    ActionsMade(path, common, 0, Parsed([], common.more), types);
  }

  lemma {:induction false} OnlyGrows(path: Path, common: Parameters, i: nat, made: Parsed)
    requires i <= |path.actions| && ActionsFrom(path.actions, common, i, made).Ok?
    ensures Among(made.types, ActionsFrom(path.actions, common, i, made).value.types)
    decreases |path.actions| - i
  {
    hide ParametersFrom, ResponsesFrom, ReferencedName;
    if i < |path.actions| {
      OnlyGrows(path, common, i + 1, MakeOperation(path.actions[i], common, made).value);
    }
  }

  // ----- the whole specification -----

  /** The actions of all paths in order, each with its path. */
  function Actions(paths: seq<Path>): seq<(Path, Action)> {
    if paths == [] then []
    else
      var path := paths[0];
      seq(|path.actions|, i requires 0 <= i < |path.actions| => (path, path.actions[i])) + Actions(paths[1..])
  }

  ghost predicate AreOperations(operations: seq<Operation>, actions: seq<(Path, Action)>, types: seq<DataType>) {
    && |operations| == |actions|
    && forall i :: 0 <= i < |operations| ==> IsOperation(operations[i], actions[i].1, actions[i].0, types)
  }

  lemma {:induction false} PathsMade(paths: seq<Path>, i: nat, made: Parsed, types: seq<DataType>)
    requires i <= |paths| && PathsFrom(paths, i, made).Ok?
    requires Among(PathsFrom(paths, i, made).value.types, types)
    ensures var r := PathsFrom(paths, i, made).value;
            && Among(made.types, r.types) && made.operations <= r.operations
            && AreOperations(r.operations[|made.operations|..], Actions(paths[i..]), types)
    decreases |paths| - i
  {
    hide OperationsOf, IsOperation;
    if i < |paths| {
      var next := OperationsOf(paths[i]).value;
      PathsMade(paths, i + 1, Parsed(made.operations + next.operations, made.types + next.types), types);
      PathMade(paths[i], types);
      var r := PathsFrom(paths, i, made).value.operations;
      var n := |made.operations|;
      assert r[n..] == next.operations + r[n + |next.operations|..];
      assert paths[i..][0] == paths[i] && paths[i..][1..] == paths[i + 1..];
    }
  }

  lemma {:induction false} ComponentsMade(
    components: seq<(string, Schema)>, i: nat, made: seq<DataType>, types: seq<DataType>)
    requires i <= |components| && ComponentsFrom(components, i, made).Ok?
    requires Among(ComponentsFrom(components, i, made).value, types)
    ensures Among(made, ComponentsFrom(components, i, made).value)
    ensures forall j :: i <= j < |components| ==> Stands(components[j].0, components[j].1, types)
    decreases |components| - i
  {
    hide MakeDataTypes, Expresses;
    if i < |components| {
      var (name, schema) := components[i];
      var next := MakeDataTypes(name, schema).value;
      var list := made + next.more + [next.dataType];
      ComponentsMade(components, i + 1, list, types);
      assert list[|made| + |next.more|] == next.dataType;
      DeclarationExpresses(name, schema, types);
      assert next.dataType in types && Expresses(next.dataType, schema, types);
    }
  }

  /** Parsing keeps the meaning: every component has a declaration that expresses it, down to all that is inside it,
      and the operations are those of all actions, in order. */
  lemma ApiExpresses(spec: Spec)
    requires ApiOf(spec).Ok?
    ensures spec.components.Some? && spec.paths.Some?
    ensures var api := ApiOf(spec).value;
            && (forall c :: c in spec.components.value ==> Stands(c.0, c.1, api.types))
            && AreOperations(api.operations, Actions(spec.paths.value), api.types)
  {
    hide ComponentsFrom, PathsFrom, Stands, IsOperation, Actions;
    var api := ApiOf(spec).value;
    var components, paths := spec.components.value, spec.paths.value;
    var types := ComponentsFrom(components, 0, []).value;
    PathsMade(paths, 0, Parsed([], types), api.types);
    ComponentsMade(components, 0, [], api.types);
    assert api.operations[0..] == api.operations && paths[0..] == paths;
    forall c | c in components ensures Stands(c.0, c.1, api.types) {
      var j :| 0 <= j < |components| && components[j] == c;
    }
  }

  // ----- the declaration that counts -----

  ghost predicate DistinctNames(types: seq<DataType>) {
    forall i, j :: 0 <= i < j < |types| ==> types[i].name != types[j].name
  }

  /** Without two declarations of one name, the declaration that counts for a name is the one that is meant. */
  lemma MeantIsWhatCounts(name: string, schema: Schema, types: seq<DataType>)
    requires DistinctNames(types) && Stands(name, schema, types)
    ensures name in ByName(types, |types|) && Expresses(ByName(types, |types|)[name], schema, types)
  {
    hide Expresses;
    var dt :| dt in types && dt.name == name && Expresses(dt, schema, types);
    assert types[..|types|] == types;
    LastIsThere(types, |types|, dt);
    DeclaredByName(types, |types|, name);
  }

  function Object(properties: seq<(string, Schema)>): Schema {
    Schema(None, None, Some("object"), None, None, properties, false)
  }

  lemma PascalStep(before: string, c: char)
    ensures Pascal(before + [c]) ==
            Pascal(before) + (if c == '_' || c == ' ' then ""
                              else if before != "" && IsLetter(before[|before| - 1]) then [Lower(c)] else [Upper(c)])
  {
    assert (before + [c])[..|before|] == before;
  }

  lemma SameFieldNames()
    ensures Pascal("a_b") == Pascal("a b") == "AB"
  {
    PascalStep("", 'a');
    PascalStep("a", '_');
    PascalStep("a_", 'b');
    PascalStep("a", ' ');
    PascalStep("a ", 'b');
    assert "a" == "" + ['a'] && "a_" == "a" + ['_'] && "a_b" == "a_" + ['b'];
    assert "a " == "a" + [' '] && "a b" == "a " + ['b'];
  }

  /** An inline object as a field: the object itself is declared under the name of the field. */
  lemma InlineObject(objectName: string, name: string, properties: seq<(string, Schema)>)
    requires FieldsFrom(objectName + Pascal(name), Object(properties), 0, Fields([], [])).Ok?
    ensures var full := objectName + Pascal(name);
            var fields := FieldsFrom(full, Object(properties), 0, Fields([], [])).value;
            MakeObjectField(objectName, name, Object(properties)) ==
              Ok(Field(full, fields.more + [DataType(full, "struct", fields.goTypes)]))
  {
    hide FieldsFrom, Pascal;
    var full := objectName + Pascal(name);
    assert MakeDataTypes(full, Object(properties)).value.dataType.goType == "struct";
    assert "struct"[0] != "[]"[0] && !("[]" <= "struct");
    assert "struct" !in PRIMITIVES;
  }

  const TEXT := Schema(None, None, Some("string"), None, None, [], false)
  const ONE_TEXT := Object([("x", TEXT)])
  const NOTHING := Object([])
  const CLASH := Object([("a_b", ONE_TEXT), ("a b", NOTHING)])

  /** What is made of an object with two inline objects whose names differ in an underscore and a blank. */
  lemma ClashMade(objectName: string)
    ensures var full := objectName + "AB";
            var a, b := DataType(full, "struct", ["string"]), DataType(full, "struct", []);
            && MakeObjectField(objectName, "a_b", ONE_TEXT) == Ok(Field(full, [a]))
            && MakeDataTypes(objectName, CLASH) == Ok(Made(DataType(objectName, "struct", [full, full]), false, [a, b]))
  {
    var full := objectName + "AB";
    var a, b := DataType(full, "struct", ["string"]), DataType(full, "struct", []);
    SameFieldNames();
    OneText(full, TEXT);
    InlineObject(objectName, "a_b", ONE_TEXT.properties);
    InlineObject(objectName, "a b", NOTHING.properties);
    var none: seq<DataType> := [];
    hide Pascal, MakeObjectField;
    assert none + [a] == [a] && none + [b] == [b] && [a] + [b] == [a, b];
    assert CLASH.properties[0] == ("a_b", ONE_TEXT) && CLASH.properties[1] == ("a b", NOTHING);
    TwoFields(objectName, CLASH, Field(full, [a]), Field(full, [b]));
  }

  /** Otherwise it may not be: both inline objects get one name, and the declaration that counts for both fields is that
      of the second. */
  lemma InlineObjectsClash(objectName: string)
    ensures var name, made := objectName + "AB", MakeDataTypes(objectName, CLASH);
            && made.Ok? && made.value.dataType.fields == [name, name]
            && var types := made.value.more;
               && Stands(name, ONE_TEXT, types) && name in ByName(types, |types|)
               && !Expresses(ByName(types, |types|)[name], ONE_TEXT, types)
  {
    ClashMade(objectName);
    SameFieldNames();
    var types := MakeDataTypes(objectName, CLASH).value.more;
    hide MakeDataTypes, MakeObjectField, Pascal;
    FieldExpresses(objectName, "a_b", ONE_TEXT, types);
    assert ByName(types, 2)[objectName + "AB"] == types[1];
  }

  lemma OneText(name: string, text: Schema)
    requires text == Schema(None, None, Some("string"), None, None, [], false)
    ensures FieldsFrom(name, Object([("x", text)]), 0, Fields([], [])) == Ok(Fields(["string"], []))
  {
    hide Pascal;
    var schema, more: seq<DataType> := Object([("x", text)]), [];
    var one := Fields(["string"], more);
    assert MakeObjectField(name, "x", text) == Ok(Field("string", more));
    assert schema.properties[0] == ("x", text) && |schema.properties| == 1;
    assert FieldsFrom(name, schema, 1, one) == Ok(one);
    assert [] + ["string"] == one.goTypes && more + more == more;
  }

  lemma TwoFields(name: string, schema: Schema, a: Field, b: Field)
    requires |schema.properties| == 2
    requires MakeObjectField(name, schema.properties[0].0, schema.properties[0].1) == Ok(a)
    requires MakeObjectField(name, schema.properties[1].0, schema.properties[1].1) == Ok(b)
    ensures FieldsFrom(name, schema, 0, Fields([], [])) == Ok(Fields([a.goType, b.goType], a.more + b.more))
  {
    hide MakeObjectField;
    var one, two := Fields([a.goType], a.more), Fields([a.goType, b.goType], a.more + b.more);
    assert FieldsFrom(name, schema, 2, two) == Ok(two);
    assert one.goTypes + [b.goType] == two.goTypes;
    assert FieldsFrom(name, schema, 1, one) == Ok(two);
    assert [] + [a.goType] == one.goTypes && [] + a.more == one.more;
  }

  // ----- which specifications fail -----

  ghost predicate GoodUri(uri: string) {
    exists name :: Refers(name, uri)
  }

  ghost predicate GoodParameter(parameter: Parameter) {
    parameter.place in {"path", "query"} && (parameter.schema.Some? ==> Sound(parameter.schema.value))
  }

  ghost predicate GoodParameters(parameters: seq<Parameter>) {
    forall p :: p in parameters ==> GoodParameter(p)
  }

  ghost predicate GoodResponses(responses: seq<Response>) {
    forall r :: r in responses ==> r.numbered && GoodUri(r.body)
  }

  ghost predicate GoodAction(action: Action) {
    GoodUri(action.body) && GoodParameters(action.parameters) && GoodResponses(action.responses)
  }

  ghost predicate GoodPath(path: Path) {
    GoodParameters(path.parameters) && forall a :: a in path.actions ==> GoodAction(a)
  }

  ghost predicate Declarable(schema: Schema) {
    forall e :: !Fault(schema, e)
  }

  /** All that the specification declares and refers to can be parsed. */
  ghost predicate GoodSpec(spec: Spec) {
    && spec.components.Some? && spec.paths.Some?
    && (forall i :: 0 <= i < |spec.components.value| ==> Declarable(spec.components.value[i].1))
    && (forall i :: 0 <= i < |spec.paths.value| ==> GoodPath(spec.paths.value[i]))
  }

  lemma FieldParses(objectName: string, name: string, schema: Schema)
    ensures MakeObjectField(objectName, name, schema).Ok? <==> Sound(schema)
  {
    hide MakeObjectField, FieldFault;
    var field := MakeObjectField(objectName, name, schema);
    forall e ensures field == Err(e) <==> FieldFault(schema, e) {
      FieldFails(objectName, name, schema, e);
    }
    if field.Err? {
      assert FieldFault(schema, field.error);
    }
  }

  lemma {:induction false} ParametersParse(list: seq<Parameter>, i: nat, made: Parameters)
    requires i <= |list|
    ensures ParametersFrom(list, i, made).Ok? <==> GoodParameters(list[i..])
    decreases |list| - i
  {
    hide MakeObjectField, Sound;
    if i < |list| {
      var p := list[i];
      assert list[i..] == [p] + list[i + 1..];
      var field := Ok(Field("string", []));
      if p.schema.Some? {
        FieldParses("", p.name, p.schema.value);
        field := MakeObjectField("", p.name, p.schema.value);
      }
      if field.Ok? {
        var more := made.more + field.value.more;
        ParametersParse(list, i + 1, made.(inPath := made.inPath + [field.value.goType], more := more));
        ParametersParse(list, i + 1, made.(inQuery := made.inQuery + [field.value.goType], more := more));
      }
      assert GoodParameters(list[i..]) <==> GoodParameter(p) && GoodParameters(list[i + 1..]);
    }
  }

  lemma {:induction false} ResponsesParse(responses: seq<Response>, i: nat, made: seq<string>)
    requires i <= |responses|
    ensures ResponsesFrom(responses, i, made).Ok? <==> GoodResponses(responses[i..])
    decreases |responses| - i
  {
    hide ReferencedName, Refers;
    if i < |responses| {
      assert responses[i..] == [responses[i]] + responses[i + 1..];
      ReferencedExactly(responses[i].body);
      if ReferencedName(responses[i].body).Ok? {
        ResponsesParse(responses, i + 1, made + [ReferencedName(responses[i].body).value]);
      }
      assert GoodResponses(responses[i..]) <==>
             responses[i].numbered && GoodUri(responses[i].body) && GoodResponses(responses[i + 1..]);
    }
  }

  lemma {:induction false} ActionsParse(actions: seq<Action>, common: Parameters, i: nat, made: Parsed)
    requires i <= |actions|
    ensures ActionsFrom(actions, common, i, made).Ok? <==> forall j :: i <= j < |actions| ==> GoodAction(actions[j])
    decreases |actions| - i
  {
    hide ParametersFrom, ResponsesFrom, ReferencedName, GoodParameters, GoodResponses, Refers;
    if i < |actions| {
      var action := actions[i];
      ReferencedExactly(action.body);
      ParametersParse(action.parameters, 0, Parameters([], [], []));
      ResponsesParse(action.responses, 0, []);
      assert action.parameters[0..] == action.parameters && action.responses[0..] == action.responses;
      if MakeOperation(action, common, made).Ok? {
        ActionsParse(actions, common, i + 1, MakeOperation(action, common, made).value);
      }
    }
  }

  lemma {:induction false} PathsParse(paths: seq<Path>, i: nat, made: Parsed)
    requires i <= |paths|
    ensures PathsFrom(paths, i, made).Ok? <==> forall j :: i <= j < |paths| ==> GoodPath(paths[j])
    decreases |paths| - i
  {
    hide ParametersFrom, ActionsFrom, GoodParameters, GoodAction;
    if i < |paths| {
      var path := paths[i];
      ParametersParse(path.parameters, 0, Parameters([], [], []));
      assert path.parameters[0..] == path.parameters;
      if ParametersFrom(path.parameters, 0, Parameters([], [], [])).Ok? {
        var common := ParametersFrom(path.parameters, 0, Parameters([], [], [])).value;
        ActionsParse(path.actions, common, 0, Parsed([], common.more));
      }
      if OperationsOf(path).Ok? {
        var next := OperationsOf(path).value;
        PathsParse(paths, i + 1, Parsed(made.operations + next.operations, made.types + next.types));
      }
    }
  }

  lemma {:induction false} ComponentsParse(components: seq<(string, Schema)>, i: nat, made: seq<DataType>)
    requires i <= |components|
    ensures ComponentsFrom(components, i, made).Ok? <==>
            forall j :: i <= j < |components| ==> Declarable(components[j].1)
    decreases |components| - i
  {
    hide MakeDataTypes, Fault;
    if i < |components| {
      var (name, schema) := components[i];
      var next := MakeDataTypes(name, schema);
      forall e ensures next == Err(e) <==> Fault(schema, e) {
        Fails(name, schema, e);
      }
      if next.Ok? {
        ComponentsParse(components, i + 1, made + next.value.more + [next.value.dataType]);
      } else {
        assert Fault(components[i].1, next.error);
      }
    }
  }

  lemma ApiParses(spec: Spec)
    ensures ApiOf(spec).Ok? <==> GoodSpec(spec)
  {
    hide ComponentsFrom, PathsFrom, Declarable, GoodPath;
    if spec.components.Some? {
      var components := spec.components.value;
      ComponentsParse(components, 0, []);
      if ComponentsFrom(components, 0, []).Ok? && spec.paths.Some? {
        PathsParse(spec.paths.value, 0, Parsed([], ComponentsFrom(components, 0, []).value));
      }
    }
  }

  // ----- names of fields -----

  /** How many characters of a name are kept. */
  function Kept(name: string): nat {
    if name == "" then 0 else Kept(name[..|name| - 1]) + if name[|name| - 1] in {'_', ' '} then 0 else 1
  }

  /** The same letter, capital or small. */
  ghost predicate SameLetter(a: char, b: char) {
    a == b || (IsLetter(a) && IsLetter(b) && (a as int - b as int == 32 || b as int - a as int == 32))
  }

  lemma {:induction false} PascalLength(name: string)
    ensures |Pascal(name)| == Kept(name)
  {
    if name != "" {
      PascalLength(name[..|name| - 1]);
    }
  }

  /** Exactly the underscores and blanks go; of the letters exactly those that follow no letter are capital. */
  lemma {:induction false} PascalExactly(name: string, i: nat)
    requires i < |name| && name[i] !in {'_', ' '}
    ensures Kept(name[..i]) < |Pascal(name)| == Kept(name)
    ensures var c := Pascal(name)[Kept(name[..i])];
            SameLetter(c, name[i]) &&
            (IsLetter(c) ==> ('A' <= c <= 'Z' <==> i == 0 || !IsLetter(name[i - 1])))
  {
    PascalLength(name);
    var n := |name| - 1;
    PascalLength(name[..n]);
    if i < n {
      PascalExactly(name[..n], i);
      assert name[..n][..i] == name[..i];
      assert Pascal(name)[Kept(name[..i])] == Pascal(name[..n])[Kept(name[..i])];
    }
  }
}
