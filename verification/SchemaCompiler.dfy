/**
 The compiler from JSON Schema objects to typed models
 (app/commands/completions/schema_to_model.py), with a semantics for each side: Valid
 follows JSON Schema Validation 2020-12, sections 6.1.1 (type), 6.1.2 (enum) and 6.5.3
 (required); Accepts and Dump are the built type read strictly, extra fields ignored.
 */
module SchemaCompiler {
  import opened Wrappers

  // ---------------------------------------------------------------- source and target

  /**
   A schema dictionary. type and items are None when the key is absent; keywords holds the
   names of the keys this model does not interpret.
   */
  datatype Schema = Schema(
    typ: Option<string>,
    keywords: set<string>,
    properties: seq<Property>,
    required: seq<string>,
    items: Option<Schema>,
    enumeration: Option<seq<string>>)

  datatype Property = Property(name: string, schema: Schema)

  datatype Type =
    | StringType
    | NumberType
    | IntegerType
    | BooleanType
    | LiteralType(values: seq<string>)
    | ListType(item: Type)
    | ModelType(fields: seq<Field>)

  /** A field without a default, or an Optional one that defaults to None. */
  datatype Field = Field(name: string, typ: Type, isRequired: bool)

  datatype CompileError =
    | NotAnObject
    | UnsupportedKeywords(found: set<string>)
    | MissingType
    | UnsupportedType(name: string)

  const UNSUPPORTED_KEYWORDS: set<string> := {"$ref", "oneOf", "allOf", "anyOf"}

  /** The schema {}, which an array without items gets. */
  const EMPTY_SCHEMA: Schema := Schema(None, {}, [], [], None, None)

  predicate ScalarName(name: string) {
    name in {"string", "number", "integer", "boolean"}
  }

  // ---------------------------------------------------------------- the keyword check

  function CheckUnsupported(schema: Schema): Option<CompileError>
    decreases schema
  {
    var found := UNSUPPORTED_KEYWORDS * schema.keywords;
    if found != {} then Some(UnsupportedKeywords(found))
    else
      var inProperties := CheckProperties(schema.properties);
      if inProperties.Some? then inProperties
      else if schema.items.Some? then CheckUnsupported(schema.items.value)
      else None
  }

  function CheckProperties(properties: seq<Property>): Option<CompileError>
    decreases properties
  {
    if properties == [] then None
    else
      var first := CheckProperty(properties[0]);
      if first.Some? then first else CheckProperties(properties[1..])
  }

  function CheckProperty(property: Property): Option<CompileError>
    decreases property
  {
    CheckUnsupported(property.schema)
  }

  // ---------------------------------------------------------------- the type builder

  function ResolveType(schema: Schema): Result<Type, CompileError>
    decreases schema, 1
  {
    match schema.typ
    case None => Failure(MissingType)
    case Some(name) =>
      if name == "string" then
        Success(if schema.enumeration.Some? then LiteralType(schema.enumeration.value) else StringType)
      else if name == "number" then Success(NumberType)
      else if name == "integer" then Success(IntegerType)
      else if name == "boolean" then Success(BooleanType)
      else if name == "array" then
        if schema.items.None? then Failure(MissingType)
        else
          var item := ResolveType(schema.items.value);
          if item.Failure? then item else Success(ListType(item.value))
      else if name == "object" then BuildModel(schema)
      else Failure(UnsupportedType(name))
  }

  function BuildModel(schema: Schema): Result<Type, CompileError>
    decreases schema, 0
  {
    var fields := BuildFields(schema.properties, schema.required);
    if fields.Failure? then Failure(fields.error) else Success(ModelType(fields.value))
  }

  function BuildFields(properties: seq<Property>, required: seq<string>): (r: Result<seq<Field>, CompileError>)
    ensures r.Success? ==> |r.value| == |properties|
    decreases properties, 0
  {
    if properties == [] then Success([])
    else
      var field := BuildField(properties[0], required);
      if field.Failure? then Failure(field.error)
      else
        var rest := BuildFields(properties[1..], required);
        if rest.Failure? then rest else Success([field.value] + rest.value)
  }

  function BuildField(property: Property, required: seq<string>): Result<Field, CompileError>
    decreases property, 0
  {
    var typ := ResolveType(property.schema);
    if typ.Failure? then Failure(typ.error)
    else Success(Field(property.name, typ.value, property.name in required))
  }

  function SchemaToModel(schema: Schema): Result<Type, CompileError> {
    if schema.typ != Some("object") then Failure(NotAnObject)
    else
      var error := CheckUnsupported(schema);
      if error.Some? then Failure(error.value) else BuildModel(schema)
  }

  // ---------------------------------------------------------------- the loops of the source

  method CheckUnsupportedKeywords(schema: Schema) returns (error: Option<CompileError>)
    ensures error == CheckUnsupported(schema)
    decreases schema
  {
    var found := UNSUPPORTED_KEYWORDS * schema.keywords;
    if found != {} {
      return Some(UnsupportedKeywords(found));
    }
    for i := 0 to |schema.properties|
      invariant CheckProperties(schema.properties) == CheckProperties(schema.properties[i..])
    {
      error := CheckUnsupportedKeywords(schema.properties[i].schema);
      assert schema.properties[i..][1..] == schema.properties[i + 1..];
      if error.Some? {
        return;
      }
    }
    if schema.items.Some? {
      error := CheckUnsupportedKeywords(schema.items.value);
      return;
    }
    return None;
  }

  /** The fields dictionary is filled property by property. */
  method FillFields(schema: Schema) returns (r: Result<Type, CompileError>)
    ensures r == BuildModel(schema)
    decreases schema, 0
  {
    var fields: seq<Field> := [];
    for i := 0 to |schema.properties|
      invariant var all := BuildFields(schema.properties, schema.required);
                var rest := BuildFields(schema.properties[i..], schema.required);
                if rest.Failure? then all == rest else all.Success? && all.value == fields + rest.value
    {
      var property := schema.properties[i];
      assert schema.properties[i..][1..] == schema.properties[i + 1..];
      var typ := Resolve(property.schema);
      if typ.Failure? {
        return typ;
      }
      fields := fields + [Field(property.name, typ.value, property.name in schema.required)];
    }
    assert schema.properties[|schema.properties|..] == [];
    assert fields + [] == fields;
    return Success(ModelType(fields));
  }

  method Resolve(schema: Schema) returns (r: Result<Type, CompileError>)
    ensures r == ResolveType(schema)
    decreases schema, 1
  {
    if schema.typ.Some? && ScalarName(schema.typ.value) {
      var name := schema.typ.value;
      if name == "string" && schema.enumeration.Some? {
        return Success(LiteralType(schema.enumeration.value));
      }
      return Success(if name == "string" then StringType
                     else if name == "number" then NumberType
                     else if name == "integer" then IntegerType
                     else BooleanType);
    }
    if schema.typ == Some("array") {
      if schema.items.None? {
        return Failure(MissingType);
      }
      var item := Resolve(schema.items.value);
      if item.Failure? {
        return item;
      }
      return Success(ListType(item.value));
    }
    if schema.typ == Some("object") {
      r := FillFields(schema);
      return;
    }
    if schema.typ.None? {
      return Failure(MissingType);
    }
    return Failure(UnsupportedType(schema.typ.value));
  }

  // ---------------------------------------------------------------- when compiling succeeds

  datatype Step = Prop(i: nat) | Items

  /** The nodes the keyword check visits: every property and every items schema, whatever the type. */
  function CheckedAt(schema: Schema, path: seq<Step>): Option<Schema>
    decreases |path|
  {
    if path == [] then Some(schema)
    else match path[0]
      case Prop(i) =>
        if i < |schema.properties| then CheckedAt(schema.properties[i].schema, path[1..]) else None
      case Items =>
        if schema.items.Some? then CheckedAt(schema.items.value, path[1..]) else None
  }

  /** The nodes the builder visits: properties of objects, and items of arrays. */
  function BuiltAt(schema: Schema, path: seq<Step>): Option<Schema>
    decreases |path|
  {
    if path == [] then Some(schema)
    else match path[0]
      case Prop(i) =>
        if schema.typ == Some("object") && i < |schema.properties|
        then BuiltAt(schema.properties[i].schema, path[1..]) else None
      case Items =>
        if schema.typ == Some("array")
        then BuiltAt(if schema.items.Some? then schema.items.value else EMPTY_SCHEMA, path[1..]) else None
  }

  predicate CleanNode(schema: Schema) {
    {"$ref", "oneOf", "allOf", "anyOf"} * schema.keywords == {}
  }

  predicate SupportedNode(schema: Schema) {
    schema.typ.Some? && (ScalarName(schema.typ.value) || schema.typ.value in {"array", "object"})
  }

  ghost predicate CleanTree(schema: Schema) {
    forall path: seq<Step> :: CheckedAt(schema, path).Some? ==> CleanNode(CheckedAt(schema, path).value)
  }

  ghost predicate SupportedTree(schema: Schema) {
    forall path: seq<Step> :: BuiltAt(schema, path).Some? ==> SupportedNode(BuiltAt(schema, path).value)
  }

  lemma {:induction false} ChecksPointwise(properties: seq<Property>)
    ensures CheckProperties(properties).None?
            <==> forall i :: 0 <= i < |properties| ==> CheckUnsupported(properties[i].schema).None?
  {
    if properties != [] {
      ChecksPointwise(properties[1..]);
      assert forall i :: 0 < i < |properties| ==> properties[i] == properties[1..][i - 1];
    }
  }

  lemma {:induction false} CheckedClean(schema: Schema, path: seq<Step>)
    requires CheckUnsupported(schema).None?
    ensures CheckedAt(schema, path).Some? ==> CleanNode(CheckedAt(schema, path).value)
    decreases |path|
  {
    if path != [] {
      ChecksPointwise(schema.properties);
      match path[0] {
        case Prop(i) =>
          if i < |schema.properties| {
            CheckedClean(schema.properties[i].schema, path[1..]);
          }
        case Items =>
          if schema.items.Some? {
            CheckedClean(schema.items.value, path[1..]);
          }
      }
    }
  }

  lemma {:induction false} FindUnclean(schema: Schema) returns (path: seq<Step>)
    requires CheckUnsupported(schema).Some?
    ensures CheckedAt(schema, path).Some? && !CleanNode(CheckedAt(schema, path).value)
    decreases schema
  {
    if !CleanNode(schema) {
      return [];
    }
    ChecksPointwise(schema.properties);
    if CheckProperties(schema.properties).Some? {
      var i :| 0 <= i < |schema.properties| && CheckUnsupported(schema.properties[i].schema).Some?;
      var rest := FindUnclean(schema.properties[i].schema);
      path := [Prop(i)] + rest;
    } else {
      var rest := FindUnclean(schema.items.value);
      path := [Items] + rest;
    }
  }

  lemma {:induction false} FieldsPointwise(properties: seq<Property>, required: seq<string>)
    ensures BuildFields(properties, required).Success?
            <==> forall i :: 0 <= i < |properties| ==> ResolveType(properties[i].schema).Success?
    ensures BuildFields(properties, required).Success? ==>
              forall i :: 0 <= i < |properties| ==>
                            var field := BuildFields(properties, required).value[i];
                            && field.name == properties[i].name
                            && ResolveType(properties[i].schema) == Success(field.typ)
                            && field.isRequired == (properties[i].name in required)
  {
    if properties != [] {
      FieldsPointwise(properties[1..], required);
      assert forall i :: 0 < i < |properties| ==> properties[i] == properties[1..][i - 1];
    }
  }

  lemma {:induction false} BuiltSupported(schema: Schema, path: seq<Step>)
    requires ResolveType(schema).Success?
    ensures BuiltAt(schema, path).Some? ==> SupportedNode(BuiltAt(schema, path).value)
    decreases |path|
  {
    if path != [] {
      FieldsPointwise(schema.properties, schema.required);
      match path[0] {
        case Prop(i) =>
          if schema.typ == Some("object") && i < |schema.properties| {
            BuiltSupported(schema.properties[i].schema, path[1..]);
          }
        case Items =>
          if schema.typ == Some("array") {
            BuiltSupported(schema.items.value, path[1..]);
          }
      }
    }
  }

  lemma {:induction false} FindUnsupported(schema: Schema) returns (path: seq<Step>)
    requires ResolveType(schema).Failure?
    ensures BuiltAt(schema, path).Some? && !SupportedNode(BuiltAt(schema, path).value)
    decreases schema
  {
    path := [];
    if schema.typ == Some("object") {
      FieldsPointwise(schema.properties, schema.required);
      var i :| 0 <= i < |schema.properties| && ResolveType(schema.properties[i].schema).Failure?;
      var rest := FindUnsupported(schema.properties[i].schema);
      path := [Prop(i)] + rest;
    } else if schema.typ == Some("array") {
      if schema.items.Some? {
        var rest := FindUnsupported(schema.items.value);
        path := [Items] + rest;
      } else {
        path := [Items];
        assert path[1..] == [];
      }
    }
  }

  /** Compiling succeeds exactly on objects whose checked tree is clean and whose built tree is supported. */
  lemma CompilesIff(schema: Schema)
    ensures SchemaToModel(schema).Success?
            <==> schema.typ == Some("object") && CleanTree(schema) && SupportedTree(schema)
  {
    if CheckUnsupported(schema).Some? {
      var path := FindUnclean(schema);
    } else {
      forall path: seq<Step> ensures CheckedAt(schema, path).Some? ==> CleanNode(CheckedAt(schema, path).value) {
        CheckedClean(schema, path);
      }
    }
    if ResolveType(schema).Failure? {
      var path := FindUnsupported(schema);
    } else {
      forall path: seq<Step> ensures BuiltAt(schema, path).Some? ==> SupportedNode(BuiltAt(schema, path).value) {
        BuiltSupported(schema, path);
      }
    }
  }

  // ---------------------------------------------------------------- which error compiling fails with

  /** All nodes the keyword check visits, in document order: a node, its properties, its items. */
  function CheckedNodes(schema: Schema): seq<Schema>
    decreases schema
  {
    [schema] + (CheckedOfProperties(schema.properties)
                + if schema.items.Some? then CheckedNodes(schema.items.value) else [])
  }

  function CheckedOfProperties(properties: seq<Property>): seq<Schema>
    decreases properties
  {
    if properties == [] then [] else CheckedOfProperty(properties[0]) + CheckedOfProperties(properties[1..])
  }

  function CheckedOfProperty(property: Property): seq<Schema>
    decreases property
  {
    CheckedNodes(property.schema)
  }

  /** The unsupported keywords of the first node that has any. */
  function FirstUnclean(nodes: seq<Schema>): Option<CompileError> {
    if nodes == [] then None
    else if !CleanNode(nodes[0])
    then Some(UnsupportedKeywords({"$ref", "oneOf", "allOf", "anyOf"} * nodes[0].keywords))
    else FirstUnclean(nodes[1..])
  }

  /** All nodes the builder visits, in document order. */
  function BuiltNodes(schema: Schema): seq<Schema>
    decreases schema
  {
    [schema] + (if schema.typ == Some("object") then BuiltOfProperties(schema.properties)
                else if schema.typ != Some("array") then []
                else if schema.items.Some? then BuiltNodes(schema.items.value) else [EMPTY_SCHEMA])
  }

  function BuiltOfProperties(properties: seq<Property>): seq<Schema>
    decreases properties
  {
    if properties == [] then [] else BuiltOfProperty(properties[0]) + BuiltOfProperties(properties[1..])
  }

  function BuiltOfProperty(property: Property): seq<Schema>
    decreases property
  {
    BuiltNodes(property.schema)
  }

  /** What is wrong with the type of the first node with which something is. */
  function FirstUnsupported(nodes: seq<Schema>): Option<CompileError> {
    if nodes == [] then None
    else if nodes[0].typ.None? then Some(MissingType)
    else if !SupportedNode(nodes[0]) then Some(UnsupportedType(nodes[0].typ.value))
    else FirstUnsupported(nodes[1..])
  }

  function ErrorOf<T>(r: Result<T, CompileError>): Option<CompileError> {
    if r.Failure? then Some(r.error) else None
  }

  function Or(a: Option<CompileError>, b: Option<CompileError>): Option<CompileError> {
    if a.Some? then a else b
  }

  lemma {:induction false} FirstUncleanConcat(a: seq<Schema>, b: seq<Schema>)
    ensures FirstUnclean(a + b) == Or(FirstUnclean(a), FirstUnclean(b))
  {
    if a == [] {
      assert a + b == b;
    } else {
      assert (a + b)[0] == a[0] && (a + b)[1..] == a[1..] + b;
      FirstUncleanConcat(a[1..], b);
    }
  }

  lemma {:induction false} FirstUnsupportedConcat(a: seq<Schema>, b: seq<Schema>)
    ensures FirstUnsupported(a + b) == Or(FirstUnsupported(a), FirstUnsupported(b))
  {
    if a == [] {
      assert a + b == b;
    } else {
      assert (a + b)[0] == a[0] && (a + b)[1..] == a[1..] + b;
      FirstUnsupportedConcat(a[1..], b);
    }
  }

  lemma {:induction false} CheckError(schema: Schema)
    ensures CheckUnsupported(schema) == FirstUnclean(CheckedNodes(schema))
    decreases schema, 1
  {
    var inProperties := CheckedOfProperties(schema.properties);
    var inItems := if schema.items.Some? then CheckedNodes(schema.items.value) else [];
    FirstUncleanConcat([schema], inProperties + inItems);
    FirstUncleanConcat(inProperties, inItems);
    assert [schema][1..] == [];
    CheckPropertiesError(schema.properties);
    if schema.items.Some? {
      CheckError(schema.items.value);
    }
  }

  lemma {:induction false} CheckPropertiesError(properties: seq<Property>)
    ensures CheckProperties(properties) == FirstUnclean(CheckedOfProperties(properties))
    decreases properties, 0
  {
    if properties != [] {
      CheckPropertyError(properties[0]);
      CheckPropertiesError(properties[1..]);
      FirstUncleanConcat(CheckedOfProperty(properties[0]), CheckedOfProperties(properties[1..]));
    }
  }

  lemma {:induction false} CheckPropertyError(property: Property)
    ensures CheckProperty(property) == FirstUnclean(CheckedOfProperty(property))
    decreases property, 0
  {
    CheckError(property.schema);
  }

  lemma {:induction false} ResolveError(schema: Schema)
    ensures ErrorOf(ResolveType(schema)) == FirstUnsupported(BuiltNodes(schema))
    decreases schema, 1
  {
    var below := BuiltNodes(schema)[1..];
    assert BuiltNodes(schema) == [schema] + below;
    FirstUnsupportedConcat([schema], below);
    assert [schema][1..] == [];
    if schema.typ == Some("object") {
      FieldsError(schema.properties, schema.required);
    } else if schema.typ == Some("array") {
      if schema.items.Some? {
        ResolveError(schema.items.value);
      } else {
        assert below == [EMPTY_SCHEMA];
      }
    }
  }

  lemma {:induction false} FieldsError(properties: seq<Property>, required: seq<string>)
    ensures ErrorOf(BuildFields(properties, required)) == FirstUnsupported(BuiltOfProperties(properties))
    decreases properties, 0
  {
    if properties != [] {
      FieldError(properties[0], required);
      FieldsError(properties[1..], required);
      FirstUnsupportedConcat(BuiltOfProperty(properties[0]), BuiltOfProperties(properties[1..]));
    }
  }

  lemma {:induction false} FieldError(property: Property, required: seq<string>)
    ensures ErrorOf(BuildField(property, required)) == FirstUnsupported(BuiltOfProperty(property))
    decreases property, 0
  {
    ResolveError(property.schema);
  }

  /**
   The error of a schema that does not compile: a wrong top level first, then the keywords
   of the first node of the whole tree that has unsupported ones, then the type of the first
   node the builder cannot build.
   */
  lemma CompileErrorIs(schema: Schema)
    ensures ErrorOf(SchemaToModel(schema))
            == if schema.typ != Some("object") then Some(NotAnObject)
               else Or(FirstUnclean(CheckedNodes(schema)), FirstUnsupported(BuiltNodes(schema)))
  {
    CheckError(schema);
    ResolveError(schema);
  }

  // ---------------------------------------------------------------- what a schema means

  /** JSON values. A Fraction is a number that is not an integer. */
  datatype Value =
    | Null
    | Bool(b: bool)
    | Int(n: int)
    | Fraction(x: real)
    | Str(s: string)
    | Arr(elements: seq<Value>)
    | Obj(members: map<string, Value>)

  predicate HasType(name: string, v: Value) {
    match v
    case Null => name == "null"
    case Bool(_) => name == "boolean"
    case Int(_) => name in {"integer", "number"}
    case Fraction(_) => name == "number"
    case Str(_) => name == "string"
    case Arr(_) => name == "array"
    case Obj(_) => name == "object"
  }

  /** Validity under the keywords type, enum, properties, required and items. */
  ghost predicate Valid(schema: Schema, v: Value)
    decreases schema
  {
    && (schema.typ.Some? ==> HasType(schema.typ.value, v))
    && (schema.enumeration.Some? ==> v.Str? && v.s in schema.enumeration.value)
    && (v.Obj? ==> forall r :: r in schema.required ==> r in v.members)
    && (v.Obj? ==> forall i :: 0 <= i < |schema.properties| ==> ValidProperty(schema.properties[i], v.members))
    && (v.Arr? && schema.items.Some? ==> forall i :: 0 <= i < |v.elements| ==> Valid(schema.items.value, v.elements[i]))
  }

  ghost predicate ValidProperty(property: Property, members: map<string, Value>)
    decreases property
  {
    property.name in members ==> Valid(property.schema, members[property.name])
  }

  /** Whether the built type takes a value. Extra members are ignored, and an Optional field takes None. */
  predicate Accepts(typ: Type, v: Value)
    decreases typ
  {
    match typ
    case StringType => v.Str?
    case NumberType => v.Int? || v.Fraction?
    case IntegerType => v.Int?
    case BooleanType => v.Bool?
    case LiteralType(values) => v.Str? && v.s in values
    case ListType(item) => v.Arr? && forall i :: 0 <= i < |v.elements| ==> Accepts(item, v.elements[i])
    case ModelType(fields) => v.Obj? && forall i :: 0 <= i < |fields| ==> AcceptsField(fields[i], v.members)
  }

  predicate AcceptsField(field: Field, members: map<string, Value>)
    decreases field
  {
    if field.name !in members then !field.isRequired
    else (!field.isRequired && members[field.name] == Null) || Accepts(field.typ, members[field.name])
  }

  /** model_dump of the instance built from v: every field is present, None where none was given. */
  function Dump(typ: Type, v: Value): Value
    decreases typ, 1
  {
    if typ.ListType? && v.Arr? then
      Arr(seq(|v.elements|, i requires 0 <= i < |v.elements| => Dump(typ.item, v.elements[i])))
    else if typ.ModelType? && v.Obj? then Obj(DumpFields(typ.fields, v.members))
    else v
  }

  function DumpFields(fields: seq<Field>, members: map<string, Value>): map<string, Value>
    decreases fields, 0
  {
    if fields == [] then map[]
    else DumpFields(fields[1..], members)[fields[0].name := DumpField(fields[0], members)]
  }

  function DumpField(field: Field, members: map<string, Value>): Value
    decreases field, 0
  {
    if field.name in members && members[field.name] != Null then Dump(field.typ, members[field.name]) else Null
  }

  /** The value without the None of its non-required fields, at every depth; other members stay. */
  function DropNone(typ: Type, v: Value): Value
    decreases typ, 1
  {
    if typ.ListType? && v.Arr? then
      Arr(seq(|v.elements|, i requires 0 <= i < |v.elements| => DropNone(typ.item, v.elements[i])))
    else if typ.ModelType? && v.Obj? then Obj(DropFields(typ.fields, v.members))
    else v
  }

  function DropFields(fields: seq<Field>, members: map<string, Value>): map<string, Value>
    decreases fields, 0
  {
    if fields == [] then members
    else
      var rest := DropFields(fields[1..], members);
      var field := fields[0];
      if field.name !in members then rest
      else if !field.isRequired && members[field.name] == Null then rest - {field.name}
      else rest[field.name := DropField(field, members[field.name])]
  }

  function DropField(field: Field, v: Value): Value
    decreases field, 0
  {
    DropNone(field.typ, v)
  }

  // ---------------------------------------------------------------- the fragment

  const ANNOTATIONS: set<string> := {"$schema", "$comment", "title", "description", "default", "examples"}

  ghost predicate DistinctNames(properties: seq<Property>) {
    forall i, j :: 0 <= i < j < |properties| ==> properties[i].name != properties[j].name
  }

  ghost predicate DistinctFields(fields: seq<Field>) {
    forall i, j :: 0 <= i < j < |fields| ==> fields[i].name != fields[j].name
  }

  /**
   The schemas the semantics covers: dictionaries have distinct keys, every other keyword
   is an annotation, and enum stands on strings and lists something.
   */
  ghost predicate Plain(schema: Schema)
    decreases schema
  {
    && schema.keywords <= ANNOTATIONS
    && DistinctNames(schema.properties)
    && (schema.enumeration.Some? ==> schema.typ == Some("string") && schema.enumeration.value != [])
    && (forall i :: 0 <= i < |schema.properties| ==> PlainProperty(schema.properties[i]))
    && (schema.items.Some? ==> Plain(schema.items.value))
  }

  ghost predicate PlainProperty(property: Property)
    decreases property
  {
    Plain(property.schema)
  }

  /** Every name in required is declared in properties, at every node the builder visits. */
  ghost predicate RequiredDeclared(schema: Schema)
    decreases schema
  {
    && (schema.typ == Some("object") ==>
          && (forall r :: r in schema.required ==>
                            exists i :: 0 <= i < |schema.properties| && schema.properties[i].name == r)
          && (forall i :: 0 <= i < |schema.properties| ==> RequiredDeclaredIn(schema.properties[i])))
    && (schema.typ == Some("array") && schema.items.Some? ==> RequiredDeclared(schema.items.value))
  }

  ghost predicate RequiredDeclaredIn(property: Property)
    decreases property
  {
    RequiredDeclared(property.schema)
  }

  // ---------------------------------------------------------------- the translation preserves meaning

  lemma {:induction false} DropPointwise(fields: seq<Field>, members: map<string, Value>, i: nat)
    requires DistinctFields(fields) && i < |fields|
    ensures var name := fields[i].name;
            && (name in DropFields(fields, members)
                <==> name in members && !(!fields[i].isRequired && members[name] == Null))
            && (name in DropFields(fields, members) ==>
                  DropFields(fields, members)[name] == DropNone(fields[i].typ, members[name]))
  {
    if i > 0 {
      DropPointwise(fields[1..], members, i - 1);
    } else {
      DropOthers(fields[1..], members, fields[0].name);
    }
  }

  lemma {:induction false} DropOthers(fields: seq<Field>, members: map<string, Value>, name: string)
    requires forall i :: 0 <= i < |fields| ==> fields[i].name != name
    ensures name in DropFields(fields, members) <==> name in members
    ensures name in members ==> DropFields(fields, members)[name] == members[name]
  {
    if fields != [] {
      DropOthers(fields[1..], members, name);
    }
  }

  lemma {:induction false} DropKeys(fields: seq<Field>, members: map<string, Value>)
    ensures DropFields(fields, members).Keys <= members.Keys
  {
    if fields != [] {
      DropKeys(fields[1..], members);
    }
  }

  lemma {:induction false} DumpPointwise(fields: seq<Field>, members: map<string, Value>, i: nat)
    requires DistinctFields(fields) && i < |fields|
    ensures fields[i].name in DumpFields(fields, members)
    ensures DumpFields(fields, members)[fields[i].name] == DumpField(fields[i], members)
  {
    if i > 0 {
      DumpPointwise(fields[1..], members, i - 1);
    }
  }

  lemma BuiltFields(schema: Schema) returns (fields: seq<Field>)
    requires schema.typ == Some("object") && ResolveType(schema).Success? && DistinctNames(schema.properties)
    ensures ResolveType(schema) == Success(ModelType(fields))
    ensures DistinctFields(fields) && |fields| == |schema.properties|
    ensures forall i :: 0 <= i < |fields| ==> FieldFor(schema.properties[i], schema.required, fields[i])
  {
    FieldsPointwise(schema.properties, schema.required);
    fields := BuildFields(schema.properties, schema.required).value;
  }

  ghost predicate FieldFor(property: Property, required: seq<string>, field: Field) {
    && field.name == property.name
    && ResolveType(property.schema) == Success(field.typ)
    && field.isRequired == (property.name in required)
  }

  lemma NullRefused(schema: Schema)
    requires ResolveType(schema).Success?
    ensures !Valid(schema, Null) && !Accepts(ResolveType(schema).value, Null)
  {
  }

  /** Every value valid under the schema is accepted by the built type. */
  lemma {:induction false} ValidIsAccepted(schema: Schema, v: Value)
    requires Plain(schema) && ResolveType(schema).Success?
    requires Valid(schema, v)
    ensures Accepts(ResolveType(schema).value, v)
    decreases schema
  {
    if schema.typ == Some("object") {
      var fields := BuiltFields(schema);
      forall i | 0 <= i < |fields|
        ensures AcceptsField(fields[i], v.members)
      {
        assert PlainProperty(schema.properties[i]) && ValidProperty(schema.properties[i], v.members);
        ValidFieldIsAccepted(schema.properties[i], schema.required, fields[i], v.members);
      }
    } else if schema.typ == Some("array") {
      forall i | 0 <= i < |v.elements|
        ensures Accepts(ResolveType(schema.items.value).value, v.elements[i])
      {
        ValidIsAccepted(schema.items.value, v.elements[i]);
      }
    }
  }

  lemma {:induction false} ValidFieldIsAccepted(
      property: Property, required: seq<string>, field: Field, members: map<string, Value>)
    requires PlainProperty(property) && FieldFor(property, required, field)
    requires ValidProperty(property, members) && (property.name in required ==> property.name in members)
    ensures AcceptsField(field, members)
    decreases property
  {
    if property.name in members {
      ValidIsAccepted(property.schema, members[property.name]);
    }
  }

  /**
   When every required name is declared, the built type accepts exactly the values that are
   valid once the None of non-required fields is dropped, at every depth.
   */
  lemma {:induction false} DeclaredAcceptsIff(schema: Schema, v: Value)
    requires Plain(schema) && RequiredDeclared(schema) && ResolveType(schema).Success?
    ensures Accepts(ResolveType(schema).value, v) <==> Valid(schema, DropNone(ResolveType(schema).value, v))
    decreases schema, 1
  {
    var typ := ResolveType(schema).value;
    if schema.typ == Some("array") && v.Arr? {
      forall i | 0 <= i < |v.elements|
        ensures Accepts(typ.item, v.elements[i]) <==> Valid(schema.items.value, DropNone(typ.item, v.elements[i]))
      {
        DeclaredAcceptsIff(schema.items.value, v.elements[i]);
      }
      var elements := DropNone(typ, v).elements;
      assert forall i :: 0 <= i < |elements| ==> elements[i] == DropNone(typ.item, v.elements[i]);
    } else if schema.typ == Some("object") && v.Obj? {
      var fields := BuiltFields(schema);
      DeclaredObjectAcceptsIff(schema, fields, v);
    }
  }

  lemma {:induction false} DeclaredFieldAcceptsIff(
      property: Property, required: seq<string>, field: Field, members: map<string, Value>,
      dropped: map<string, Value>)
    requires PlainProperty(property) && RequiredDeclaredIn(property) && FieldFor(property, required, field)
    requires field.name in dropped <==> field.name in members && !(!field.isRequired && members[field.name] == Null)
    requires field.name in dropped ==> dropped[field.name] == DropNone(field.typ, members[field.name])
    ensures AcceptsField(field, members)
            <==> (property.name in required ==> property.name in dropped) && ValidProperty(property, dropped)
    decreases property, 0
  {
    if property.name in dropped {
      DeclaredAcceptsIff(property.schema, members[property.name]);
      NullRefused(property.schema);
    }
  }

  lemma {:induction false} DeclaredObjectAcceptsIff(schema: Schema, fields: seq<Field>, v: Value)
    requires Plain(schema) && RequiredDeclared(schema) && schema.typ == Some("object") && v.Obj?
    requires ResolveType(schema) == Success(ModelType(fields))
    requires DistinctFields(fields) && |fields| == |schema.properties|
    requires forall i :: 0 <= i < |fields| ==> FieldFor(schema.properties[i], schema.required, fields[i])
    ensures Accepts(ModelType(fields), v) <==> Valid(schema, Obj(DropFields(fields, v.members)))
    decreases schema, 0
  {
    var dropped := DropFields(fields, v.members);
    forall i | 0 <= i < |fields|
      ensures AcceptsField(fields[i], v.members)
              <==> (schema.properties[i].name in schema.required ==> schema.properties[i].name in dropped)
                   && ValidProperty(schema.properties[i], dropped)
    {
      DropPointwise(fields, v.members, i);
      assert PlainProperty(schema.properties[i]) && RequiredDeclaredIn(schema.properties[i]);
      DeclaredFieldAcceptsIff(schema.properties[i], schema.required, fields[i], v.members, dropped);
    }
    AllRequiredIff(schema, dropped);
  }

  /** With every required name declared, the required clause can be read off the properties. */
  lemma AllRequiredIff(schema: Schema, members: map<string, Value>)
    requires RequiredDeclared(schema) && schema.typ == Some("object")
    ensures (forall r :: r in schema.required ==> r in members)
            <==> forall i :: 0 <= i < |schema.properties| ==>
                               (schema.properties[i].name in schema.required ==> schema.properties[i].name in members)
  {
  }

  // ---------------------------------------------------------------- what the built type enforces, for every schema

  /** The declared ones of the names. */
  function DeclaredOf(names: seq<string>, properties: seq<Property>): (kept: seq<string>)
    ensures forall n :: n in kept <==> n in names && IsDeclared(n, properties)
  {
    if names == [] then []
    else (if IsDeclared(names[0], properties) then [names[0]] else []) + DeclaredOf(names[1..], properties)
  }

  predicate IsDeclared(name: string, properties: seq<Property>) {
    exists i :: 0 <= i < |properties| && properties[i].name == name
  }

  /** The schema without the undeclared names in required, at every node the builder visits. */
  function Trim(schema: Schema): Schema
    decreases schema, 1
  {
    if schema.typ == Some("object") then
      var properties := TrimProperties(schema.properties);
      schema.(properties := properties, required := DeclaredOf(schema.required, schema.properties))
    else if schema.typ == Some("array") && schema.items.Some? then
      schema.(items := Some(Trim(schema.items.value)))
    else schema
  }

  function TrimProperties(properties: seq<Property>): (trimmed: seq<Property>)
    ensures |trimmed| == |properties|
    decreases properties, 0
  {
    if properties == [] then [] else [TrimProperty(properties[0])] + TrimProperties(properties[1..])
  }

  function TrimProperty(property: Property): Property
    decreases property, 0
  {
    Property(property.name, Trim(property.schema))
  }

  lemma {:induction false} TrimPointwise(properties: seq<Property>, i: nat)
    requires i < |properties|
    ensures TrimProperties(properties)[i] == TrimProperty(properties[i])
  {
    if i > 0 {
      TrimPointwise(properties[1..], i - 1);
    }
  }

  lemma TrimKeepsNames(properties: seq<Property>, name: string)
    ensures IsDeclared(name, TrimProperties(properties)) <==> IsDeclared(name, properties)
  {
    forall i | 0 <= i < |properties|
      ensures TrimProperties(properties)[i].name == properties[i].name
    {
      TrimPointwise(properties, i);
    }
    assert |TrimProperties(properties)| == |properties|;
  }

  /** A trimmed schema is in the fragment, declares all it requires, and is built to the same type. */
  lemma {:induction false} TrimKeepsType(schema: Schema)
    requires Plain(schema) && ResolveType(schema).Success?
    ensures Plain(Trim(schema)) && RequiredDeclared(Trim(schema))
    ensures ResolveType(Trim(schema)) == ResolveType(schema)
    decreases schema
  {
    if schema.typ == Some("object") {
      var fields := BuiltFields(schema);
      forall i | 0 <= i < |schema.properties|
        ensures TrimProperties(schema.properties)[i].name == schema.properties[i].name
        ensures PlainProperty(TrimProperties(schema.properties)[i])
        ensures RequiredDeclaredIn(TrimProperties(schema.properties)[i])
        ensures ResolveType(TrimProperties(schema.properties)[i].schema) == ResolveType(schema.properties[i].schema)
      {
        assert FieldFor(schema.properties[i], schema.required, fields[i]) && PlainProperty(schema.properties[i]);
        TrimPointwise(schema.properties, i);
        TrimPropertyKeepsType(schema.properties[i]);
      }
      TrimmedObject(schema);
      TrimmedFields(schema, fields);
    } else if schema.typ == Some("array") {
      TrimKeepsType(schema.items.value);
    }
  }

  lemma {:induction false} TrimPropertyKeepsType(property: Property)
    requires PlainProperty(property) && ResolveType(property.schema).Success?
    ensures var trimmed := TrimProperty(property);
            && PlainProperty(trimmed) && RequiredDeclaredIn(trimmed)
            && ResolveType(trimmed.schema) == ResolveType(property.schema)
    decreases property
  {
    TrimKeepsType(property.schema);
  }

  lemma TrimmedObject(schema: Schema)
    requires Plain(schema) && schema.typ == Some("object")
    requires forall i :: 0 <= i < |schema.properties| ==>
                           var trimmed := TrimProperties(schema.properties)[i];
                           && trimmed.name == schema.properties[i].name
                           && PlainProperty(trimmed) && RequiredDeclaredIn(trimmed)
    ensures Plain(Trim(schema)) && RequiredDeclared(Trim(schema))
  {
    var trimmed := Trim(schema);
    forall r | r in trimmed.required
      ensures exists i :: 0 <= i < |trimmed.properties| && trimmed.properties[i].name == r
    {
      TrimKeepsNames(schema.properties, r);
      assert IsDeclared(r, trimmed.properties);
    }
  }

  lemma TrimmedFields(schema: Schema, fields: seq<Field>)
    requires schema.typ == Some("object") && ResolveType(schema) == Success(ModelType(fields))
    requires |fields| == |schema.properties|
    requires forall i :: 0 <= i < |fields| ==> FieldFor(schema.properties[i], schema.required, fields[i])
    requires forall i :: 0 <= i < |schema.properties| ==>
                           var trimmed := TrimProperties(schema.properties)[i];
                           && trimmed.name == schema.properties[i].name
                           && ResolveType(trimmed.schema) == ResolveType(schema.properties[i].schema)
    ensures ResolveType(Trim(schema)) == ResolveType(schema)
  {
    var trimmed := Trim(schema);
    FieldsPointwise(trimmed.properties, trimmed.required);
    forall i | 0 <= i < |fields|
      ensures ResolveType(trimmed.properties[i].schema) == Success(fields[i].typ)
    {
      assert FieldFor(schema.properties[i], schema.required, fields[i]);
    }
    var built := BuildFields(trimmed.properties, trimmed.required).value;
    forall i | 0 <= i < |fields|
      ensures built[i] == fields[i]
    {
      assert IsDeclared(schema.properties[i].name, schema.properties);
    }
    assert built == fields;
  }

  /** A schema that declares all it requires is not changed, and no other schema is. */
  lemma {:induction false} TrimUnchangedIff(schema: Schema)
    ensures Trim(schema) == schema <==> RequiredDeclared(schema)
    decreases schema
  {
    if schema.typ == Some("object") {
      forall i | 0 <= i < |schema.properties|
        ensures TrimProperties(schema.properties)[i] == schema.properties[i]
                <==> RequiredDeclaredIn(schema.properties[i])
      {
        TrimPointwise(schema.properties, i);
        TrimPropertyUnchangedIff(schema.properties[i]);
      }
      DeclaredOfAll(schema.required, schema.properties);
      assert TrimProperties(schema.properties) == schema.properties
             <==> forall i :: 0 <= i < |schema.properties| ==>
                                TrimProperties(schema.properties)[i] == schema.properties[i];
    } else if schema.typ == Some("array") && schema.items.Some? {
      TrimUnchangedIff(schema.items.value);
    }
  }

  lemma {:induction false} TrimPropertyUnchangedIff(property: Property)
    ensures TrimProperty(property) == property <==> RequiredDeclaredIn(property)
    decreases property
  {
    TrimUnchangedIff(property.schema);
  }

  lemma {:induction false} DeclaredOfAll(names: seq<string>, properties: seq<Property>)
    ensures DeclaredOf(names, properties) == names <==> forall n :: n in names ==> IsDeclared(n, properties)
    ensures |DeclaredOf(names, properties)| <= |names|
  {
    if names != [] {
      DeclaredOfAll(names[1..], properties);
      if IsDeclared(names[0], properties) {
        assert DeclaredOf(names, properties)[1..] == DeclaredOf(names[1..], properties);
        assert names == [names[0]] + names[1..];
      }
    }
  }

  /**
   For every schema of the fragment that is built at all, the built type accepts exactly
   the values that are valid, once the None of non-required fields is dropped, under the
   schema without its undeclared required names.
   */
  lemma AcceptsIff(schema: Schema, v: Value)
    requires Plain(schema) && ResolveType(schema).Success?
    ensures Accepts(ResolveType(schema).value, v) <==> Valid(Trim(schema), DropNone(ResolveType(schema).value, v))
    ensures RequiredDeclared(schema) ==> Trim(schema) == schema
  {
    TrimKeepsType(schema);
    DeclaredAcceptsIff(Trim(schema), v);
    TrimUnchangedIff(schema);
  }

  lemma {:induction false} DumpIsAccepted(schema: Schema, v: Value)
    requires Plain(schema) && ResolveType(schema).Success?
    requires Accepts(ResolveType(schema).value, v)
    ensures Accepts(ResolveType(schema).value, Dump(ResolveType(schema).value, v))
    decreases schema
  {
    var typ := ResolveType(schema).value;
    if schema.typ == Some("object") {
      var fields := BuiltFields(schema);
      forall i | 0 <= i < |fields|
        ensures AcceptsField(fields[i], DumpFields(fields, v.members))
      {
        DumpPointwise(fields, v.members, i);
        assert PlainProperty(schema.properties[i]) && AcceptsField(fields[i], v.members);
        DumpFieldIsAccepted(schema.properties[i], schema.required, fields[i], v.members);
      }
    } else if schema.typ == Some("array") {
      forall i | 0 <= i < |v.elements|
        ensures Accepts(typ.item, Dump(typ.item, v.elements[i]))
      {
        DumpIsAccepted(schema.items.value, v.elements[i]);
      }
    }
  }

  lemma {:induction false} DumpFieldIsAccepted(
      property: Property, required: seq<string>, field: Field, members: map<string, Value>)
    requires PlainProperty(property) && FieldFor(property, required, field)
    requires AcceptsField(field, members)
    ensures var dumped := DumpField(field, members);
            (!field.isRequired && dumped == Null) || Accepts(field.typ, dumped)
    decreases property
  {
    NullRefused(property.schema);
    if field.name in members && members[field.name] != Null {
      DumpIsAccepted(property.schema, members[field.name]);
    }
  }

  /** Every accepted value, dumped and with the None of non-required fields dropped, is valid under the schema. */
  lemma DumpIsValid(schema: Schema, v: Value)
    requires Plain(schema) && RequiredDeclared(schema) && ResolveType(schema).Success?
    requires Accepts(ResolveType(schema).value, v)
    ensures Valid(schema, DropNone(ResolveType(schema).value, Dump(ResolveType(schema).value, v)))
  {
    DumpIsAccepted(schema, v);
    DeclaredAcceptsIff(schema, Dump(ResolveType(schema).value, v));
  }

  // ---------------------------------------------------------------- required names that are not declared

  /** Some value of a type. */
  function Sample(typ: Type): Value
    decreases typ, 1
  {
    match typ
    case StringType => Str("")
    case NumberType => Int(0)
    case IntegerType => Int(0)
    case BooleanType => Bool(false)
    case LiteralType(values) => if values == [] then Str("") else Str(values[0])
    case ListType(_) => Arr([])
    case ModelType(fields) => Obj(SampleFields(fields))
  }

  function SampleFields(fields: seq<Field>): map<string, Value>
    decreases fields, 0
  {
    if fields == [] then map[] else SampleFields(fields[1..])[fields[0].name := SampleField(fields[0])]
  }

  function SampleField(field: Field): Value
    decreases field, 0
  {
    Sample(field.typ)
  }

  lemma {:induction false} SamplePointwise(fields: seq<Field>, i: nat)
    requires DistinctFields(fields) && i < |fields|
    ensures fields[i].name in SampleFields(fields)
    ensures SampleFields(fields)[fields[i].name] == Sample(fields[i].typ)
  {
    if i > 0 {
      SamplePointwise(fields[1..], i - 1);
    }
  }

  lemma {:induction false} DumpOthers(fields: seq<Field>, members: map<string, Value>, name: string)
    requires forall i :: 0 <= i < |fields| ==> fields[i].name != name
    ensures name !in DumpFields(fields, members)
  {
    if fields != [] {
      DumpOthers(fields[1..], members, name);
    }
  }

  lemma {:induction false} SampleIsAccepted(schema: Schema)
    requires Plain(schema) && ResolveType(schema).Success?
    ensures Accepts(ResolveType(schema).value, Sample(ResolveType(schema).value))
    decreases schema
  {
    if schema.typ == Some("object") {
      var fields := BuiltFields(schema);
      forall i | 0 <= i < |fields|
        ensures AcceptsField(fields[i], SampleFields(fields))
      {
        SamplePointwise(fields, i);
        assert PlainProperty(schema.properties[i]);
        SampleOfPropertyIsAccepted(schema.properties[i]);
      }
    }
  }

  lemma {:induction false} SampleOfPropertyIsAccepted(property: Property)
    requires PlainProperty(property) && ResolveType(property.schema).Success?
    ensures Accepts(ResolveType(property.schema).value, Sample(ResolveType(property.schema).value))
    decreases property
  {
    SampleIsAccepted(property.schema);
  }

  /** The value is accepted, but its dump is not valid. */
  ghost predicate Breaks(schema: Schema, v: Value)
    requires ResolveType(schema).Success?
  {
    var typ := ResolveType(schema).value;
    Accepts(typ, v) && !Valid(schema, DropNone(typ, Dump(typ, v)))
  }

  lemma MissingNameBreaks(schema: Schema, name: string)
    requires Plain(schema) && schema.typ == Some("object") && ResolveType(schema).Success?
    requires name in schema.required && forall i :: 0 <= i < |schema.properties| ==> schema.properties[i].name != name
    ensures Breaks(schema, Sample(ResolveType(schema).value))
  {
    var fields := BuiltFields(schema);
    var members := SampleFields(fields);
    SampleIsAccepted(schema);
    DropKeys(fields, DumpFields(fields, members));
    assert forall i :: 0 <= i < |fields| ==> FieldFor(schema.properties[i], schema.required, fields[i]);
    DumpOthers(fields, members, name);
  }

  /** A sample object stays accepted when one member becomes another value of its type. */
  lemma SampleWithIsAccepted(schema: Schema, fields: seq<Field>, i: nat, v: Value)
    requires Plain(schema) && DistinctFields(fields) && i < |fields| == |schema.properties|
    requires forall k :: 0 <= k < |fields| ==> FieldFor(schema.properties[k], schema.required, fields[k])
    requires Accepts(fields[i].typ, v)
    ensures Accepts(ModelType(fields), Obj(SampleFields(fields)[fields[i].name := v]))
  {
    forall k | 0 <= k < |fields|
      ensures AcceptsField(fields[k], SampleFields(fields)[fields[i].name := v])
    {
      SamplePointwise(fields, k);
      assert PlainProperty(schema.properties[k]) && FieldFor(schema.properties[k], schema.required, fields[k]);
      SampleIsAccepted(schema.properties[k].schema);
    }
  }

  lemma PropertyBreaks(schema: Schema, i: nat, v: Value) returns (w: Value)
    requires Plain(schema) && schema.typ == Some("object") && ResolveType(schema).Success? && i < |schema.properties|
    requires ResolveType(schema.properties[i].schema).Success? && Breaks(schema.properties[i].schema, v)
    ensures Breaks(schema, w)
  {
    var fields := BuiltFields(schema);
    var name := fields[i].name;
    var members := SampleFields(fields)[name := v];
    w := Obj(members);
    assert FieldFor(schema.properties[i], schema.required, fields[i]) && PlainProperty(schema.properties[i]);
    NullRefused(schema.properties[i].schema);
    DumpIsAccepted(schema.properties[i].schema, v);
    SampleWithIsAccepted(schema, fields, i, v);
    DumpPointwise(fields, members, i);
    DropPointwise(fields, DumpFields(fields, members), i);
    assert !ValidProperty(schema.properties[i], DropFields(fields, DumpFields(fields, members)));
  }

  lemma {:induction false} UndeclaredBreaks(schema: Schema) returns (v: Value)
    requires Plain(schema) && ResolveType(schema).Success? && !RequiredDeclared(schema)
    ensures Breaks(schema, v)
    decreases schema
  {
    if schema.typ == Some("array") {
      var w := UndeclaredBreaks(schema.items.value);
      v := Arr([w]);
      var typ := ResolveType(schema).value;
      assert Accepts(typ.item, v.elements[0]);
      var dropped := DropNone(typ, Dump(typ, v)).elements;
      assert dropped[0] == DropNone(typ.item, Dump(typ.item, w));
    } else if r :| r in schema.required && forall i :: 0 <= i < |schema.properties| ==> schema.properties[i].name != r {
      MissingNameBreaks(schema, r);
      v := Sample(ResolveType(schema).value);
    } else {
      FieldsPointwise(schema.properties, schema.required);
      var i :| 0 <= i < |schema.properties| && !RequiredDeclaredIn(schema.properties[i]);
      assert PlainProperty(schema.properties[i]);
      var w := UndeclaredBreaksIn(schema.properties[i]);
      v := PropertyBreaks(schema, i, w);
    }
  }

  lemma {:induction false} UndeclaredBreaksIn(property: Property) returns (v: Value)
    requires PlainProperty(property) && ResolveType(property.schema).Success? && !RequiredDeclaredIn(property)
    ensures Breaks(property.schema, v)
    decreases property
  {
    v := UndeclaredBreaks(property.schema);
  }

  /** Dumps are valid, for every accepted value, exactly when every required name is declared. */
  lemma DumpsValidIff(schema: Schema)
    requires Plain(schema) && ResolveType(schema).Success?
    ensures (forall v :: !Breaks(schema, v)) <==> RequiredDeclared(schema)
  {
    if RequiredDeclared(schema) {
      forall v
        ensures !Breaks(schema, v)
      {
        if Accepts(ResolveType(schema).value, v) {
          DumpIsValid(schema, v);
        }
      }
    } else {
      var v := UndeclaredBreaks(schema);
    }
  }

  // ---------------------------------------------------------------- nothing declared is lost

  /** The value without the members its type does not declare, at every depth. */
  function Declared(typ: Type, v: Value): Value
    decreases typ, 1
  {
    if typ.ListType? && v.Arr? then
      Arr(seq(|v.elements|, i requires 0 <= i < |v.elements| => Declared(typ.item, v.elements[i])))
    else if typ.ModelType? && v.Obj? then Obj(DeclaredFields(typ.fields, v.members))
    else v
  }

  function DeclaredFields(fields: seq<Field>, members: map<string, Value>): map<string, Value>
    decreases fields, 0
  {
    if fields == [] then map[]
    else
      var rest := DeclaredFields(fields[1..], members);
      if fields[0].name in members
      then rest[fields[0].name := DeclaredField(fields[0], members[fields[0].name])] else rest
  }

  function DeclaredField(field: Field, v: Value): Value
    decreases field, 0
  {
    Declared(field.typ, v)
  }

  lemma {:induction false} DeclaredPointwise(fields: seq<Field>, members: map<string, Value>, i: nat)
    requires DistinctFields(fields) && i < |fields|
    ensures fields[i].name in DeclaredFields(fields, members) <==> fields[i].name in members
    ensures fields[i].name in members ==>
              DeclaredFields(fields, members)[fields[i].name] == Declared(fields[i].typ, members[fields[i].name])
  {
    if i > 0 {
      DeclaredPointwise(fields[1..], members, i - 1);
    } else {
      DeclaredOthers(fields[1..], members, fields[0].name);
    }
  }

  lemma {:induction false} DeclaredOthers(fields: seq<Field>, members: map<string, Value>, name: string)
    requires forall i :: 0 <= i < |fields| ==> fields[i].name != name
    ensures name !in DeclaredFields(fields, members)
  {
    if fields != [] {
      DeclaredOthers(fields[1..], members, name);
    }
  }

  /** A valid value comes back from the built type as itself, less the members the schema does not declare. */
  lemma {:induction false} ValidRoundTrip(schema: Schema, v: Value)
    requires Plain(schema) && ResolveType(schema).Success? && Valid(schema, v)
    ensures var typ := ResolveType(schema).value;
            DropNone(typ, Dump(typ, v)) == Declared(typ, v)
    decreases schema
  {
    var typ := ResolveType(schema).value;
    if schema.typ == Some("array") {
      forall i | 0 <= i < |v.elements|
        ensures DropNone(typ.item, Dump(typ.item, v.elements[i])) == Declared(typ.item, v.elements[i])
      {
        ValidRoundTrip(schema.items.value, v.elements[i]);
      }
      assert DropNone(typ, Dump(typ, v)).elements == Declared(typ, v).elements;
    } else if schema.typ == Some("object") {
      var fields := BuiltFields(schema);
      var dumped := DumpFields(fields, v.members);
      var back := DropFields(fields, dumped);
      forall name
        ensures name in back <==> name in DeclaredFields(fields, v.members)
        ensures name in back ==> back[name] == DeclaredFields(fields, v.members)[name]
      {
        if i :| 0 <= i < |fields| && fields[i].name == name {
          assert FieldFor(schema.properties[i], schema.required, fields[i]) && PlainProperty(schema.properties[i]);
          assert ValidProperty(schema.properties[i], v.members);
          DumpPointwise(fields, v.members, i);
          DropPointwise(fields, dumped, i);
          DeclaredPointwise(fields, v.members, i);
          FieldRoundTrip(schema.properties[i], schema.required, fields[i], v.members);
        } else {
          DropKeys(fields, dumped);
          DeclaredOthers(fields, v.members, name);
          DumpOthers(fields, v.members, name);
        }
      }
      assert back == DeclaredFields(fields, v.members);
    }
  }

  lemma {:induction false} FieldRoundTrip(
      property: Property, required: seq<string>, field: Field, members: map<string, Value>)
    requires PlainProperty(property) && FieldFor(property, required, field)
    requires ValidProperty(property, members) && (property.name in required ==> property.name in members)
    ensures var dumped := DumpField(field, members);
            if field.name in members
            then dumped != Null && DropNone(field.typ, dumped) == Declared(field.typ, members[field.name])
            else dumped == Null && !field.isRequired
    decreases property
  {
    NullRefused(property.schema);
    if field.name in members {
      ValidRoundTrip(property.schema, members[field.name]);
      ValidIsAccepted(property.schema, members[field.name]);
      DumpIsAccepted(property.schema, members[field.name]);
    }
  }

  /**
   The whole claim for schema_to_model, at every nesting depth, for every schema it accepts
   in the fragment: valid values are accepted and come back; what is accepted, and what
   accepted values are dumped to, is valid under the trimmed schema, which is the schema
   itself when it declares all it requires.
   */
  lemma CompilerPreservesMeaning(schema: Schema, v: Value)
    requires Plain(schema) && SchemaToModel(schema).Success?
    ensures var typ := SchemaToModel(schema).value;
            && (Valid(schema, v) ==> Accepts(typ, v) && DropNone(typ, Dump(typ, v)) == Declared(typ, v))
            && (Accepts(typ, v) <==> Valid(Trim(schema), DropNone(typ, v)))
            && (Accepts(typ, v) ==> Valid(Trim(schema), DropNone(typ, Dump(typ, v))))
            && (Trim(schema) == schema <==> RequiredDeclared(schema))
  {
    assert ResolveType(schema) == SchemaToModel(schema);
    if Valid(schema, v) {
      ValidIsAccepted(schema, v);
      ValidRoundTrip(schema, v);
    }
    AcceptsIff(schema, v);
    TrimUnchangedIff(schema);
    if Accepts(ResolveType(schema).value, v) {
      TrimKeepsType(schema);
      DumpIsValid(Trim(schema), v);
    }
  }
}
