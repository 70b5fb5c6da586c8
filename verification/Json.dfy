/** JSON values as the brokers exchange them, and the parameter check of a pipeline. */
module Json {
  import opened Basics

  datatype Json =
    | Null
    | Bool(flag: bool)
    | Int(i: int)
    | Float(x: real)
    | Str(text: string)
    | Arr(items: seq<Json>)
    | Obj(fields: map<string, Json>)

  type ParamMap = map<string, Json>

  function Get(j: Json, key: string): Option<Json> {
    if j.Obj? && key in j.fields then Some(j.fields[key]) else None
  }

  /** The strings of the schema's `required` array; other entries are skipped. */
  function Strings(items: seq<Json>): (out: seq<string>)
    ensures forall s :: s in out <==> Str(s) in items
  {
    if items == [] then []
    else (if items[0].Str? then [items[0].text] else []) + Strings(items[1..])
  }

  function RequiredFields(schema: Json): seq<string> {
    match Get(schema, "required")
    case Some(Arr(items)) => Strings(items)
    case _ => []
  }

  /** Whether `value` passes a property's `type` name; integers also count as numbers. */
  predicate HasType(value: Json, name: string) {
    match value
    case Null => name == "null"
    case Bool(_) => name == "boolean"
    case Int(_) => name == "integer" || name == "number"
    case Float(_) => name == "number"
    case Str(_) => name == "string"
    case Arr(_) => name == "array"
    case Obj(_) => name == "object"
  }

  predicate FieldValid(value: Json, schema: Json) {
    && (match Get(schema, "type")
        case Some(Str(name)) => HasType(value, name)
        case _ => true)
    && (match Get(schema, "enum")
        case Some(Arr(items)) => value in items
        case _ => true)
  }

  /** Required fields are present and every declared field that is present fits its schema. */
  predicate ParamsValid(schema: Json, params: ParamMap) {
    && (forall f :: f in RequiredFields(schema) ==> f in params)
    && (match Get(schema, "properties")
        case Some(Obj(props)) => forall k :: k in props && k in params ==> FieldValid(params[k], props[k])
        case _ => true)
  }

  // ----- What the check accepts -----

  /** A schema that declares one field. */
  function OneField(field: string, schema: Json, required: bool): Json {
    Obj(map["properties" := Obj(map[field := schema]), "required" := Arr(if required then [Str(field)] else [])])
  }

  lemma OneFieldParts(field: string, schema: Json, required: bool)
    ensures forall f :: f in RequiredFields(OneField(field, schema, required)) <==> required && f == field
    ensures Get(OneField(field, schema, required), "properties") == Some(Obj(map[field := schema]))
  {
    var items := if required then [Str(field)] else [];
    assert Get(OneField(field, schema, required), "required") == Some(Arr(items));
    assert forall f :: Str(f) in items <==> required && f == field;
  }

  /** A declared type accepts exactly the values of its kind, integers being numbers too, and an unknown type none. */
  lemma TypedFieldExactly(field: string, name: string, required: bool, params: ParamMap)
    ensures ParamsValid(OneField(field, Obj(map["type" := Str(name)]), required), params) <==>
            if field !in params then !required
            else
              match name
              case "string" => params[field].Str?
              case "integer" => params[field].Int?
              case "number" => params[field].Int? || params[field].Float?
              case "boolean" => params[field].Bool?
              case "array" => params[field].Arr?
              case "object" => params[field].Obj?
              case "null" => params[field].Null?
              case _ => false
  {
    hide RequiredFields;
    var schema := Obj(map["type" := Str(name)]);
    OneFieldParts(field, schema, required);
    assert Get(schema, "type") == Some(Str(name)) && Get(schema, "enum").None?;
  }

  /** An enumeration accepts exactly its members, of whatever type. */
  lemma EnumFieldExactly(field: string, items: seq<Json>, required: bool, params: ParamMap)
    ensures ParamsValid(OneField(field, Obj(map["enum" := Arr(items)]), required), params) <==>
            if field in params then params[field] in items else !required
  {
    hide RequiredFields;
    var schema := Obj(map["enum" := Arr(items)]);
    OneFieldParts(field, schema, required);
    assert Get(schema, "enum") == Some(Arr(items)) && Get(schema, "type").None?;
  }
}
