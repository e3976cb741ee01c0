/**
 The second way a definition is used: as a JSON Schema for one structured-output call.
 `Validates` is the meaning of the schemas that are produced, after JSON Schema 2020-12:
 `type` (Validation, section 6.1.1), `required` (Validation, section 6.5.3), `properties`,
 `additionalProperties` and `items` (Core, sections 10.3.2.1, 10.3.2.3 and 10.3.1.2).
 */
module StructuredOutput {
  import opened Wrappers
  import opened JsonSchema

  datatype JsonType = JsonString | JsonNumber | JsonInteger | JsonBoolean | JsonObject | JsonArray

  datatype Schema = Schema(
    jsonType: JsonType,
    description: Option<string>,
    properties: SchemaProperties,
    required: set<string>,        // the order of the list means nothing
    closed: bool,                 // "additionalProperties": false
    items: Option<Schema>)

  datatype SchemaProperties = Absent | Present(entries: map<string, Schema>)

  function Plain(t: JsonType, instruction: string): Schema {
    Schema(t, if instruction != "" then Some(instruction) else None, Absent, {}, false, None)
  }

  function DefinitionToJSONSchema(d: Definition): Schema {
    match d.dataType
    case Object =>
      (match d.properties
       case NilProperties => Plain(JsonObject, d.instruction)
       case Properties(entries) =>
         Plain(JsonObject, d.instruction).(
         properties := Present(map k | k in entries :: DefinitionToJSONSchema(entries[k])),
         required := entries.Keys,
         closed := true))
    case Array =>
      Plain(JsonArray, d.instruction).(
      items := match d.items
               case Some(item) => Some(DefinitionToJSONSchema(item))
               case None => Some(Plain(JsonString, "")))
    case Number => Plain(JsonNumber, d.instruction)
    case Integer => Plain(JsonInteger, d.instruction)
    case Boolean => Plain(JsonBoolean, d.instruction)
    case _ => Plain(JsonString, d.instruction)
  }

  /** The loop that fills `properties` and `required`, in whatever order the map is ranged over. */
  method ObjectToSchema(d: Definition) returns (schema: Schema)
    requires d.dataType.Object?
    ensures schema == DefinitionToJSONSchema(d)
  {
    schema := Plain(JsonObject, d.instruction);
    if d.properties.Properties? {
      var entries := d.properties.entries;
      var properties: map<string, Schema> := map[];
      var required: set<string> := {};
      var left := entries.Keys;
      while left != {}
        invariant left <= entries.Keys && required == entries.Keys - left
        invariant properties == map k | k in entries && k !in left :: DefinitionToJSONSchema(entries[k])
      {
        var key :| key in left;
        left := left - {key};
        properties := properties[key := DefinitionToJSONSchema(entries[key])];
        required := required + {key};
      }
      assert properties == map k | k in entries :: DefinitionToJSONSchema(entries[k]);
      schema := schema.(properties := Present(properties), required := required, closed := true);
    }
  }

  predicate IsWhole(r: real) { r.Floor as real == r }

  predicate HasType(v: GoValue, t: JsonType) {
    match t
    case JsonString => v.GoString?
    case JsonNumber => v.GoInt? || v.GoFloat?
    case JsonInteger => v.GoInt? || (v.GoFloat? && IsWhole(v.r))
    case JsonBoolean => v.GoBool?
    case JsonObject => v.GoMap?
    case JsonArray => v.GoList?
  }

  predicate Validates(v: GoValue, s: Schema) {
    && HasType(v, s.jsonType)
    && (v.GoMap? ==>
         && s.required <= v.entries.Keys
         && (s.properties.Present? ==>
              forall k :: k in s.properties.entries && k in v.entries ==>
                  Validates(v.entries[k], s.properties.entries[k]))
         && (s.closed ==> forall k :: k in v.entries ==> s.properties.Present? && k in s.properties.entries))
    && (v.GoList? && s.items.Some? ==> forall x :: x in v.items ==> Validates(x, s.items.value))
  }

  // ---------- What the schema of a definition means ----------

  /** What a schema made of the definition should accept. */
  predicate Accepts(d: Definition, v: GoValue) {
    match d.dataType
    case Object =>
      && v.GoMap?
      && (d.properties.Properties? ==>
            && v.entries.Keys == d.properties.entries.Keys
            && forall k :: k in d.properties.entries && k in v.entries ==>
                Accepts(d.properties.entries[k], v.entries[k]))
    case Array =>
      v.GoList? && forall x :: x in v.items ==> if d.items.Some? then Accepts(d.items.value, x) else x.GoString?
    case Number => v.GoInt? || v.GoFloat?
    case Integer => v.GoInt? || (v.GoFloat? && IsWhole(v.r))
    case Boolean => v.GoBool?
    case _ => v.GoString?
  }

  /** The schema of a definition accepts exactly the values of its type: objects with all properties and no others. */
  lemma {:induction false} ValidatesIff(d: Definition, v: GoValue)
    ensures Validates(v, DefinitionToJSONSchema(d)) <==> Accepts(d, v)
    decreases d
  {
    match d.dataType
    case Object =>
      if d.properties.Properties? && v.GoMap? {
        var e := d.properties.entries;
        forall k | k in e && k in v.entries
          ensures Validates(v.entries[k], DefinitionToJSONSchema(e[k])) <==> Accepts(e[k], v.entries[k])
        {
          ValidatesIff(e[k], v.entries[k]);
        }
        SameKeys(v.entries, e);
      }
    case Array =>
      if d.items.Some? && v.GoList? {
        forall x | x in v.items
          ensures Validates(x, DefinitionToJSONSchema(d.items.value)) <==> Accepts(d.items.value, x)
        {
          ValidatesIff(d.items.value, x);
        }
      }
    case _ =>
  }

  lemma SameKeys<V, W>(v: map<string, V>, e: map<string, W>)
    ensures e.Keys <= v.Keys && (forall k :: k in v ==> k in e) <==> v.Keys == e.Keys
  {
  }

  /** The schema carries the instruction, and so do those of its properties and items. */
  predicate Describes(s: Schema, d: Definition)
    decreases d
  {
    && s.description == (if d.instruction == "" then None else Some(d.instruction))
    && (d.dataType.Object? && d.properties.Properties? ==>
          && s.properties.Present?
          && s.properties.entries.Keys == d.properties.entries.Keys
          && forall k :: k in d.properties.entries ==> Describes(s.properties.entries[k], d.properties.entries[k]))
    && (d.dataType.Array? && d.items.Some? ==> s.items.Some? && Describes(s.items.value, d.items.value))
  }

  lemma {:induction false} SchemaDescribes(d: Definition)
    ensures Describes(DefinitionToJSONSchema(d), d)
    decreases d
  {
    if d.dataType.Object? && d.properties.Properties? {
      forall k | k in d.properties.entries
        ensures Describes(DefinitionToJSONSchema(d.properties.entries[k]), d.properties.entries[k])
      {
        SchemaDescribes(d.properties.entries[k]);
      }
    }
    if d.dataType.Array? && d.items.Some? { SchemaDescribes(d.items.value); }
  }
}
