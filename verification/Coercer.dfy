/** Coercion as it is carried out: entries and items are overwritten one by one. */
module Coercer {
  import opened Coercion

  // the height of a schema bounds the descent

  function Max(a: nat, b: nat): nat { if a > b then a else b }

  function Height(schema: Schema): nat
  {
    match schema
    case Anything => 0
    case Schema(allOf, anyOf, oneOf, _, properties, additional, items) =>
      1 + Max(Max(ListHeight(allOf), Max(ListHeight(anyOf), ListHeight(oneOf))),
              Max(TableHeight(properties), Max(Height(additional), ItemsHeight(items))))
  }

  function ListHeight(schemas: Schemas): nat
  {
    match schemas
    case NoSchemas => 0
    case More(s, tail) => Max(Height(s) + 1, ListHeight(tail))
  }

  function TableHeight(t: PropertyTable): nat
  {
    if t.Table? then PropertiesHeight(t.properties) else 0
  }

  function PropertiesHeight(p: Properties): nat
  {
    match p
    case NoProperties => 0
    case Property(_, s, rest) => Max(Height(s) + 1, PropertiesHeight(rest))
  }

  function ItemsHeight(items: Items): nat
  {
    match items
    case AnyItems => 0
    case Tuple(schemas) => ListHeight(schemas)
    case Each(s) => Height(s)
  }

  method CoerceWithJsonSchema(py: Python, value: Value, schema: Schema) returns (r: Value)
    ensures r == Coerced(py, value, schema)
    decreases Height(schema), 2
  {
    if schema.Anything? {
      return value;
    }
    r := value;
    var rest := schema.allOf;
    while rest.More?
      invariant ListHeight(rest) <= ListHeight(schema.allOf)
      invariant CoercedAll(py, r, rest) == CoercedAll(py, value, schema.allOf)
      decreases rest
    {
      r := CoerceWithJsonSchema(py, r, rest.head);
      rest := rest.tail;
    }
    r := CoerceWithUnionSchema(py, r, schema.anyOf, Height(schema));
    r := CoerceWithUnionSchema(py, r, schema.oneOf, Height(schema));
    r := CoerceSchemaTypes(py, r, schema.types);
    r := CoerceObjectProperties(py, r, schema);
    r := CoerceArrayItems(py, r, schema.types, schema.items, Height(schema));
  }

  method CoerceWithUnionSchema(py: Python, value: Value, schemas: Schemas, ghost height: nat) returns (r: Value)
    requires ListHeight(schemas) < height
    ensures r == CoercedUnion(py, value, value, schemas)
    decreases height, 0
  {
    var rest := schemas;
    while rest.More?
      invariant ListHeight(rest) <= ListHeight(schemas)
      invariant CoercedUnion(py, value, value, rest) == CoercedUnion(py, value, value, schemas)
      decreases rest
    {
      if rest.head.Schema? {
        var candidate := CoerceWithJsonSchema(py, value, rest.head);
        if py.valid(candidate, rest.head) {
          return candidate;
        }
      }
      rest := rest.tail;
    }
    return value;
  }

  method CoerceSchemaTypes(py: Python, value: Value, types: seq<string>) returns (r: Value)
    ensures r == CoerceTypes(py, value, types)
  {
    if |types| > 1 && MatchesSome(value, types) {
      return value;
    }
    for i := 0 to |types|
      invariant FirstChange(py, value, types[i..]) == FirstChange(py, value, types)
    {
      var candidate := CoercePrimitive(py, value, types[i]);
      if candidate != value {
        return candidate;
      }
    }
    return value;
  }

  method CoerceObjectProperties(py: Python, value: Value, schema: Schema) returns (r: Value)
    requires schema.Schema?
    ensures r == CoercedObject(py, value, schema)
    decreases Height(schema), 0
  {
    if !ReadsEntries(value, schema) {
      return value;
    }
    var properties := TableOf(schema.properties);
    var entries := value.entries;
    var rest := properties;
    while rest.Property?
      invariant PropertiesHeight(rest) <= TableHeight(schema.properties)
      invariant CoercedProperties(py, entries, rest) == CoercedProperties(py, value.entries, properties)
      decreases rest
    {
      if rest.key in entries {
        var item := CoerceWithJsonSchema(py, entries[rest.key], rest.schema);
        entries := entries[rest.key := item];
      }
      rest := rest.rest;
    }
    var named := entries;
    var keys := set k | k in named && !Has(properties, k);
    while keys != {}
      invariant keys <= named.Keys && entries.Keys == named.Keys
      invariant forall k :: k in keys ==> !Has(properties, k) && entries[k] == named[k]
      invariant forall k :: k in named && k !in keys ==>
                  entries[k] == if Has(properties, k) then named[k] else Coerced(py, named[k], schema.additional)
      decreases |keys|
    {
      var key :| key in keys;
      var item := CoerceWithJsonSchema(py, entries[key], schema.additional);
      entries := entries[key := item];
      keys := keys - {key};
    }
    r := Object(entries);
    assert entries == CoercedObject(py, value, schema).entries;
  }

  method CoerceArrayItems(py: Python, value: Value, types: seq<string>, items: Items, ghost height: nat)
    returns (r: Value)
    requires ItemsHeight(items) < height
    ensures r == CoercedItems(py, value, types, items)
    decreases height, 0
  {
    if "array" !in types || !value.Array? {
      return value;
    }
    var values := value.items;
    match items
    case AnyItems => r := value;
    case Tuple(schemas) =>
      var rest, i := schemas, 0;
      while rest.More?
        invariant i >= 0 && ListHeight(rest) <= ListHeight(schemas)
        invariant CoercedTuple(py, values, i, rest) == CoercedTuple(py, value.items, 0, schemas)
        decreases rest
      {
        if i < |values| {
          var item := CoerceWithJsonSchema(py, values[i], rest.head);
          values := values[i := item];
        }
        rest, i := rest.tail, i + 1;
      }
      r := Array(values);
    case Each(s) =>
      for i := 0 to |value.items|
        invariant |values| == |value.items|
        invariant forall j :: 0 <= j < |values| ==>
                    values[j] == if j < i then Coerced(py, value.items[j], s) else value.items[j]
      {
        var item := CoerceWithJsonSchema(py, values[i], s);
        values := values[i := item];
      }
      r := Array(values);
      assert r.items == CoercedItems(py, value, types, items).items;
  }
}
