/**
 Coercing a tool's arguments towards its JSON schema.  How Python reads and prints
 floats, and whether a value satisfies a schema, are given functions.
 */
module Coercion {
  import opened Options

  datatype Value =
    | Null
    | Bool(b: bool)
    | Int(n: int)
    | Float(x: FloatValue)
    | Str(s: string)
    | Array(items: seq<Value>)
    | Object(entries: map<string, Value>)

  datatype FloatValue = Finite(r: real) | NotFinite(name: string)

  /** A schema's keywords that coercion looks at; `Anything` is a schema that is not an object. */
  datatype Schema =
    | Anything
    | Schema(allOf: Schemas, anyOf: Schemas, oneOf: Schemas, types: seq<string>,
             properties: PropertyTable, additional: Schema, items: Items)

  datatype Schemas = NoSchemas | More(head: Schema, tail: Schemas)
  datatype PropertyTable = Absent | NotATable | Table(properties: Properties)
  datatype Properties = NoProperties | Property(key: string, schema: Schema, rest: Properties)
  datatype Items = AnyItems | Tuple(schemas: Schemas) | Each(schema: Schema)

  datatype Python = Python(
    parse: string -> Option<FloatValue>,     // `float(text)`, or None for a ValueError
    show: Value -> string,                   // `str` of a number
    valid: (Value, Schema) -> bool)

  // ------------------------------------------------------------------- scalars

  predicate Matches(v: Value, t: string)
  {
    match t
    case "number" => v.Int? || v.Float?
    case "integer" => v.Int?
    case "boolean" => v.Bool?
    case "string" => v.Str?
    case "null" => v.Null?
    case "array" => v.Array?
    case "object" => v.Object?
    case _ => false
  }

  predicate Whole(x: FloatValue)
  {
    x.Finite? && x.r == x.r.Floor as real
  }

  function CoerceNumber(py: Python, v: Value): Value
  {
    match v
    case Null => Int(0)
    case Bool(b) => Int(if b then 1 else 0)
    case Str(s) =>
      var parsed := py.parse(s);
      if parsed.None? || !parsed.value.Finite? then v
      else if Whole(parsed.value) then Int(parsed.value.r.Floor) else Float(parsed.value)
    case _ => v
  }

  function CoerceInteger(py: Python, v: Value): Value
  {
    match v
    case Null => Int(0)
    case Bool(b) => Int(if b then 1 else 0)
    case Str(s) =>
      var parsed := py.parse(s);
      if parsed.Some? && Whole(parsed.value) then Int(parsed.value.r.Floor) else v
    case _ => v
  }

  function CoerceBoolean(v: Value): Value
  {
    if v == Null then Bool(false)
    else if v == Str("true") || v == Int(1) || v == Float(Finite(1.0)) then Bool(true)
    else if v == Str("false") || v == Int(0) || v == Float(Finite(0.0)) then Bool(false)
    else v
  }

  function CoerceString(py: Python, v: Value): Value
  {
    match v
    case Null => Str("")
    case Bool(b) => Str(if b then "true" else "false")
    case Int(_) => Str(py.show(v))
    case Float(_) => Str(py.show(v))
    case _ => v
  }

  function CoerceNull(v: Value): Value
  {
    if v == Str("") || v == Int(0) || v == Float(Finite(0.0)) || v == Bool(false) then Null else v
  }

  function CoercePrimitive(py: Python, v: Value, t: string): Value
  {
    match t
    case "number" => CoerceNumber(py, v)
    case "integer" => CoerceInteger(py, v)
    case "boolean" => CoerceBoolean(v)
    case "string" => CoerceString(py, v)
    case "null" => CoerceNull(v)
    case _ => v
  }

  /** The first type in the list that changes the value decides. */
  function FirstChange(py: Python, v: Value, types: seq<string>): Value
  {
    if types == [] then v
    else if CoercePrimitive(py, v, types[0]) != v then CoercePrimitive(py, v, types[0])
    else FirstChange(py, v, types[1..])
  }

  predicate MatchesSome(v: Value, types: seq<string>)
  {
    exists i :: 0 <= i < |types| && Matches(v, types[i])
  }

  function CoerceTypes(py: Python, v: Value, types: seq<string>): Value
  {
    if |types| > 1 && MatchesSome(v, types) then v else FirstChange(py, v, types)
  }

  // -------------------------------------------------------------------- schemas

  predicate Has(p: Properties, key: string)
  {
    p.Property? && (p.key == key || Has(p.rest, key))
  }

  function TableOf(t: PropertyTable): Properties
  {
    if t.Table? then t.properties else NoProperties
  }

  /** The value that coercion makes of `v` under a schema. */
  function Coerced(py: Python, v: Value, schema: Schema): Value
    decreases schema, 1
  {
    match schema
    case Anything => v
    case Schema(allOf, anyOf, oneOf, types, properties, additional, items) =>
      var all := CoercedAll(py, v, allOf);
      var any := CoercedUnion(py, all, all, anyOf);
      var one := CoercedUnion(py, any, any, oneOf);
      CoercedItems(py, CoercedObject(py, CoerceTypes(py, one, types), schema), types, items)
  }

  function CoercedAll(py: Python, v: Value, schemas: Schemas): Value
    decreases schemas
  {
    match schemas
    case NoSchemas => v
    case More(s, tail) => CoercedAll(py, Coerced(py, v, s), tail)
  }

  /** The first alternative whose own coercion of `v` satisfies it, or `otherwise`;
      alternatives that are not objects are passed over. */
  function CoercedUnion(py: Python, v: Value, otherwise: Value, schemas: Schemas): Value
    decreases schemas
  {
    match schemas
    case NoSchemas => otherwise
    case More(s, tail) =>
      var candidate := Coerced(py, v, s);
      if s.Schema? && py.valid(candidate, s) then candidate else CoercedUnion(py, v, otherwise, tail)
  }

  /** Whether an object's entries are coerced at all. */
  predicate ReadsEntries(v: Value, schema: Schema)
    requires schema.Schema?
  {
    v.Object? && !schema.properties.NotATable? && ("object" in schema.types || schema.properties.Table?)
  }

  function CoercedObject(py: Python, v: Value, schema: Schema): Value
    requires schema.Schema?
    decreases schema, 0
  {
    if !ReadsEntries(v, schema) then v
    else
      var properties := TableOf(schema.properties);
      var named := match schema.properties case Table(p) => CoercedProperties(py, v.entries, p) case _ => v.entries;
      Object(map k | k in named :: if Has(properties, k) then named[k] else Coerced(py, named[k], schema.additional))
  }

  function CoercedProperties(py: Python, entries: map<string, Value>, p: Properties): map<string, Value>
    decreases p
  {
    match p
    case NoProperties => entries
    case Property(k, s, rest) =>
      CoercedProperties(py, if k in entries then entries[k := Coerced(py, entries[k], s)] else entries, rest)
  }

  function CoercedItems(py: Python, v: Value, types: seq<string>, items: Items): Value
    decreases items
  {
    if !v.Array? || "array" !in types then v
    else
      match items
      case AnyItems => v
      case Tuple(schemas) => Array(CoercedTuple(py, v.items, 0, schemas))
      case Each(s) => Array(seq(|v.items|, i requires 0 <= i < |v.items| => Coerced(py, v.items[i], s)))
  }

  function CoercedTuple(py: Python, values: seq<Value>, i: nat, schemas: Schemas): (r: seq<Value>)
    ensures |r| == |values|
    decreases schemas
  {
    match schemas
    case NoSchemas => values
    case More(s, tail) =>
      CoercedTuple(py, if i < |values| then values[i := Coerced(py, values[i], s)] else values, i + 1, tail)
  }

  // -------------------------------------------------- schemas without combinators

  /** No allOf, anyOf or oneOf at any depth, and tables whose keys are distinct. */
  predicate Plain(schema: Schema)
  {
    schema.Schema? ==>
      && schema.allOf.NoSchemas? && schema.anyOf.NoSchemas? && schema.oneOf.NoSchemas?
      && (schema.properties.Table? ==> PlainProperties(schema.properties.properties))
      && Plain(schema.additional)
      && match schema.items
         case AnyItems => true
         case Tuple(schemas) => PlainTuple(schemas)
         case Each(s) => Plain(s)
  }

  predicate PlainProperties(p: Properties)
  {
    p.Property? ==> Plain(p.schema) && PlainProperties(p.rest) && !Has(p.rest, p.key)
  }

  predicate PlainTuple(schemas: Schemas)
  {
    schemas.More? ==> Plain(schemas.head) && PlainTuple(schemas.tail)
  }

  function Find(p: Properties, key: string): Schema
    requires Has(p, key)
  {
    if p.key == key then p.schema else Find(p.rest, key)
  }

  /** The schema at an index of a tuple. */
  function At(schemas: Schemas, i: nat): Schema
  {
    match schemas
    case NoSchemas => Anything
    case More(s, tail) => if i == 0 then s else At(tail, i - 1)
  }

  lemma {:induction false} PropertiesAt(py: Python, entries: map<string, Value>, p: Properties, key: string)
    requires PlainProperties(p)
    ensures CoercedProperties(py, entries, p).Keys == entries.Keys
    ensures key in entries ==>
              (var r := CoercedProperties(py, entries, p)[key];
               r == if Has(p, key) then Coerced(py, entries[key], Find(p, key)) else entries[key])
  {
    if p.Property? {
      var next := if p.key in entries then entries[p.key := Coerced(py, entries[p.key], p.schema)] else entries;
      assert next.Keys == entries.Keys;
      PropertiesAt(py, next, p.rest, key);
    }
  }

  lemma {:induction false} TupleAt(py: Python, values: seq<Value>, from: nat, schemas: Schemas, i: nat)
    requires i < |values|
    ensures CoercedTuple(py, values, from, schemas)[i]
         == if i < from then values[i] else Coerced(py, values[i], At(schemas, i - from))
    decreases schemas
  {
    if schemas.More? {
      var next := if from < |values| then values[from := Coerced(py, values[from], schemas.head)] else values;
      TupleAt(py, next, from + 1, schemas.tail, i);
    }
  }

  // ------------------------------------------------------------------ scalars again

  /** A primitive coercion either leaves the value alone or gives its own type. */
  lemma PrimitiveMatches(py: Python, v: Value, t: string)
    ensures var r := CoercePrimitive(py, v, t);
            r != v ==> Matches(r, t) && CoercePrimitive(py, r, t) == r && !v.Object? && !v.Array?
                       && !r.Object? && !r.Array?
  {
  }

  /** Coercion by types changes a value only into one of the types, and then rests. */
  lemma {:induction false} FirstChangeMatches(py: Python, v: Value, types: seq<string>)
    ensures var r := FirstChange(py, v, types);
            r != v ==> MatchesSome(r, types) && !v.Object? && !v.Array? && !r.Object? && !r.Array?
    ensures var r := FirstChange(py, v, types); r != v && |types| == 1 ==> FirstChange(py, r, types) == r
  {
    if types != [] {
      PrimitiveMatches(py, v, types[0]);
      var r := CoercePrimitive(py, v, types[0]);
      if r == v {
        FirstChangeMatches(py, v, types[1..]);
        var rest := FirstChange(py, v, types[1..]);
        if MatchesSome(rest, types[1..]) {
          var i :| 0 <= i < |types[1..]| && Matches(rest, types[1..][i]);
          assert Matches(rest, types[i + 1]);
        }
      } else {
        assert Matches(r, types[0]);
        if |types| == 1 {
          assert FirstChange(py, r, types[1..]) == r;
        }
      }
    }
  }

  lemma TypesRest(py: Python, v: Value, types: seq<string>)
    ensures var r := CoerceTypes(py, v, types);
            && CoerceTypes(py, r, types) == r
            && (r != v ==> MatchesSome(r, types))
            && (v.Object? || v.Array? || r.Object? || r.Array? ==> r == v)
  {
    FirstChangeMatches(py, v, types);
  }

  // ------------------------------------------------------------------ idempotence

  /** Under a schema without combinators, coercing twice is coercing once. */
  lemma {:induction false} Idempotent(py: Python, v: Value, schema: Schema)
    requires Plain(schema)
    ensures Coerced(py, Coerced(py, v, schema), schema) == Coerced(py, v, schema)
    decreases schema, 1
  {
    if schema.Schema? {
      var typed := CoerceTypes(py, v, schema.types);
      TypesRest(py, v, schema.types);
      TypesRest(py, Coerced(py, v, schema), schema.types);
      if typed.Object? {
        IdempotentObject(py, typed, schema);
      } else if typed.Array? {
        IdempotentItems(py, typed, schema.types, schema.items);
      }
    }
  }

  lemma {:induction false} IdempotentObject(py: Python, v: Value, schema: Schema)
    requires schema.Schema? && Plain(schema) && v.Object?
    ensures var r := CoercedObject(py, v, schema); r.Object? && CoercedObject(py, r, schema) == r
    decreases schema, 0
  {
    var r := CoercedObject(py, v, schema);
    if ReadsEntries(v, schema) {
      var again := CoercedObject(py, r, schema);
      var p := TableOf(schema.properties);
      ObjectAt(py, v, schema);
      ObjectAt(py, r, schema);
      forall k | k in v.entries ensures again.entries[k] == r.entries[k] {
        if Has(p, k) {
          IdempotentProperty(py, v.entries[k], p, k);
        } else {
          Idempotent(py, v.entries[k], schema.additional);
        }
      }
      assert again.entries == r.entries;
    }
  }

  /** An object keeps its keys; each entry is coerced by its own schema, once. */
  lemma ObjectAt(py: Python, v: Value, schema: Schema)
    requires schema.Schema? && Plain(schema) && ReadsEntries(v, schema)
    ensures var r, p := CoercedObject(py, v, schema), TableOf(schema.properties);
            && r.Object? && r.entries.Keys == v.entries.Keys
            && forall k :: k in v.entries ==>
                 r.entries[k] == Coerced(py, v.entries[k], if Has(p, k) then Find(p, k) else schema.additional)
  {
    var r, p := CoercedObject(py, v, schema), TableOf(schema.properties);
    PropertiesAt(py, v.entries, p, "");
    forall k | k in v.entries
      ensures r.entries[k] == Coerced(py, v.entries[k], if Has(p, k) then Find(p, k) else schema.additional)
    {
      PropertiesAt(py, v.entries, p, k);
    }
  }

  lemma {:induction false} IdempotentProperty(py: Python, v: Value, p: Properties, key: string)
    requires PlainProperties(p) && Has(p, key)
    ensures Coerced(py, Coerced(py, v, Find(p, key)), Find(p, key)) == Coerced(py, v, Find(p, key))
    decreases p, 0
  {
    if p.key == key {
      Idempotent(py, v, p.schema);
    } else {
      IdempotentProperty(py, v, p.rest, key);
    }
  }

  lemma {:induction false} IdempotentItems(py: Python, v: Value, types: seq<string>, items: Items)
    requires v.Array?
    requires match items case AnyItems => true case Tuple(schemas) => PlainTuple(schemas) case Each(s) => Plain(s)
    ensures var r := CoercedItems(py, v, types, items); r.Array? && CoercedItems(py, r, types, items) == r
    decreases items, 0
  {
    if "array" in types {
      var r := CoercedItems(py, v, types, items);
      var again := CoercedItems(py, r, types, items);
      match items
      case AnyItems =>
      case Tuple(schemas) =>
        forall i | 0 <= i < |v.items| ensures again.items[i] == r.items[i] {
          TupleAt(py, v.items, 0, schemas, i);
          TupleAt(py, r.items, 0, schemas, i);
          IdempotentTuple(py, v.items[i], schemas, i);
        }
        assert again.items == r.items;
      case Each(s) =>
        forall i | 0 <= i < |v.items| ensures again.items[i] == r.items[i] {
          Idempotent(py, v.items[i], s);
        }
        assert again.items == r.items;
    }
  }

  lemma {:induction false} IdempotentTuple(py: Python, v: Value, schemas: Schemas, i: nat)
    requires PlainTuple(schemas)
    ensures Coerced(py, Coerced(py, v, At(schemas, i)), At(schemas, i)) == Coerced(py, v, At(schemas, i))
    decreases schemas, 0
  {
    if schemas.More? {
      if i == 0 {
        Idempotent(py, v, schemas.head);
      } else {
        IdempotentTuple(py, v, schemas.tail, i - 1);
      }
    }
  }

  // ------------------------------------------------------------ what may change

  /** Whether `r` is `v` with nothing changed but leaves that now have a type their
      own schema lists. */
  predicate OnlyTypedLeavesChange(v: Value, schema: Schema, r: Value)
    decreases schema, 1
  {
    match v
    case Object(entries) =>
      if schema.Anything? then r == v
      else r.Object? && r.entries.Keys == entries.Keys
           && forall k :: k in entries ==> EntryExplained(entries[k], schema, k, r.entries[k])
    case Array(items) =>
      if schema.Anything? then r == v
      else r.Array? && |r.items| == |items|
           && forall i :: 0 <= i < |items| ==> ItemExplained(items[i], schema.items, i, r.items[i])
    case _ => r == v || (schema.Schema? && MatchesSome(r, schema.types))
  }

  predicate EntryExplained(v: Value, schema: Schema, key: string, r: Value)
    requires schema.Schema?
    decreases schema, 0
  {
    || r == v
    || match schema.properties
       case Table(p) =>
         if Has(p, key) then PropertyExplained(v, p, key, r) else OnlyTypedLeavesChange(v, schema.additional, r)
       case _ => OnlyTypedLeavesChange(v, schema.additional, r)
  }

  predicate PropertyExplained(v: Value, p: Properties, key: string, r: Value)
    decreases p
  {
    p.Property? && if p.key == key then OnlyTypedLeavesChange(v, p.schema, r) else PropertyExplained(v, p.rest, key, r)
  }

  predicate ItemExplained(v: Value, items: Items, i: nat, r: Value)
    decreases items
  {
    || r == v
    || match items
       case AnyItems => false
       case Tuple(schemas) => TupleExplained(v, schemas, i, r)
       case Each(s) => OnlyTypedLeavesChange(v, s, r)
  }

  predicate TupleExplained(v: Value, schemas: Schemas, i: nat, r: Value)
    decreases schemas
  {
    && schemas.More?
    && if i == 0 then OnlyTypedLeavesChange(v, schemas.head, r) else TupleExplained(v, schemas.tail, i - 1, r)
  }

  /** Under a schema without combinators, coercion keeps every object's keys and every
      array's length, and changes only leaves, into a type their schema lists. */
  lemma {:induction false} CoercionChangesOnlyTypedLeaves(py: Python, v: Value, schema: Schema)
    requires Plain(schema)
    ensures OnlyTypedLeavesChange(v, schema, Coerced(py, v, schema))
    decreases schema, 1
  {
    if schema.Schema? {
      var typed := CoerceTypes(py, v, schema.types);
      TypesRest(py, v, schema.types);
      if v.Object? && ReadsEntries(v, schema) {
        var r := CoercedObject(py, v, schema);
        ObjectAt(py, v, schema);
        forall k | k in v.entries ensures EntryExplained(v.entries[k], schema, k, r.entries[k]) {
          if Has(TableOf(schema.properties), k) {
            PropertyIsExplained(py, v.entries[k], schema.properties.properties, k);
          } else {
            CoercionChangesOnlyTypedLeaves(py, v.entries[k], schema.additional);
          }
        }
      } else if v.Array? && "array" in schema.types {
        ItemsAreExplained(py, v, schema.types, schema.items);
      }
    }
  }

  lemma {:induction false} PropertyIsExplained(py: Python, v: Value, p: Properties, key: string)
    requires PlainProperties(p) && Has(p, key)
    ensures PropertyExplained(v, p, key, Coerced(py, v, Find(p, key)))
    decreases p, 0
  {
    if p.key == key {
      CoercionChangesOnlyTypedLeaves(py, v, p.schema);
    } else {
      PropertyIsExplained(py, v, p.rest, key);
    }
  }

  lemma {:induction false} ItemsAreExplained(py: Python, v: Value, types: seq<string>, items: Items)
    requires v.Array?
    requires match items case AnyItems => true case Tuple(schemas) => PlainTuple(schemas) case Each(s) => Plain(s)
    ensures var r := CoercedItems(py, v, types, items);
            r.Array? && |r.items| == |v.items|
            && forall i :: 0 <= i < |v.items| ==> ItemExplained(v.items[i], items, i, r.items[i])
    decreases items, 0
  {
    var r := CoercedItems(py, v, types, items);
    if "array" in types {
      match items
      case AnyItems =>
      case Tuple(schemas) =>
        forall i | 0 <= i < |v.items| ensures ItemExplained(v.items[i], items, i, r.items[i]) {
          TupleAt(py, v.items, 0, schemas, i);
          TupleIsExplained(py, v.items[i], schemas, i);
        }
      case Each(s) =>
        forall i | 0 <= i < |v.items| ensures ItemExplained(v.items[i], items, i, r.items[i]) {
          CoercionChangesOnlyTypedLeaves(py, v.items[i], s);
        }
    }
  }

  lemma {:induction false} TupleIsExplained(py: Python, v: Value, schemas: Schemas, i: nat)
    requires PlainTuple(schemas)
    ensures Coerced(py, v, At(schemas, i)) == v || TupleExplained(v, schemas, i, Coerced(py, v, At(schemas, i)))
    decreases schemas, 0
  {
    if schemas.More? {
      if i == 0 {
        CoercionChangesOnlyTypedLeaves(py, v, schemas.head);
      } else {
        TupleIsExplained(py, v, schemas.tail, i - 1);
      }
    }
  }

  // --------------------------------------------------------------- with unions

  function Leaf(t: string): Schema
  {
    Schema(NoSchemas, NoSchemas, NoSchemas, [t], Absent, Anything, AnyItems)
  }

  /** A schema that is nothing but a list of alternatives. */
  function UnionOf(schemas: Schemas): Schema
  {
    Schema(NoSchemas, schemas, NoSchemas, [], Absent, Anything, AnyItems)
  }

  /** The first alternative whose own coercion of `v` satisfies it. */
  function FirstAccepting(py: Python, v: Value, schemas: Schemas): (r: Option<Schema>)
    ensures r.Some? ==> r.value.Schema? && py.valid(Coerced(py, v, r.value), r.value)
  {
    match schemas
    case NoSchemas => None
    case More(s, tail) =>
      if s.Schema? && py.valid(Coerced(py, v, s), s) then Some(s) else FirstAccepting(py, v, tail)
  }

  lemma {:induction false} UnionTakesFirst(py: Python, v: Value, otherwise: Value, schemas: Schemas)
    ensures var first := FirstAccepting(py, v, schemas);
            CoercedUnion(py, v, otherwise, schemas) == if first.Some? then Coerced(py, v, first.value) else otherwise
  {
    if schemas.More? {
      UnionTakesFirst(py, v, otherwise, schemas.tail);
    }
  }

  predicate IsAlternative(s: Schema, schemas: Schemas)
  {
    schemas.More? && (s == schemas.head || IsAlternative(s, schemas.tail))
  }

  lemma {:induction false} FirstIsAlternative(py: Python, v: Value, schemas: Schemas, s: Schema)
    ensures FirstAccepting(py, v, schemas) == Some(s) ==> IsAlternative(s, schemas)
    ensures IsAlternative(s, schemas) && s.Schema? && py.valid(Coerced(py, v, s), s) ==>
              FirstAccepting(py, v, schemas).Some?
  {
    if schemas.More? {
      FirstIsAlternative(py, v, schemas.tail, s);
    }
  }

  lemma UnionUnfolds(py: Python, v: Value, schemas: Schemas)
    ensures Coerced(py, v, UnionOf(schemas)) == CoercedUnion(py, v, v, schemas)
  {
    var r := CoercedUnion(py, v, v, schemas);
    assert CoercedAll(py, v, NoSchemas) == v && CoercedUnion(py, r, r, NoSchemas) == r;
    assert CoerceTypes(py, r, []) == r;
    assert CoercedObject(py, r, UnionOf(schemas)) == r && CoercedItems(py, r, [], AnyItems) == r;
  }

  /** Coercing by plain alternatives comes to rest at once exactly when it changes
      nothing, or the first alternative that accepts the result leaves it as it is;
      the alternative that gave the result accepts it again, but need not be the first. */
  lemma UnionRestsIff(py: Python, v: Value, schemas: Schemas)
    requires PlainTuple(schemas)
    ensures var r := Coerced(py, v, UnionOf(schemas));
            var given, again := FirstAccepting(py, v, schemas), FirstAccepting(py, r, schemas);
            if given.None? then r == v && Coerced(py, r, UnionOf(schemas)) == r
            else
              && r == Coerced(py, v, given.value) == Coerced(py, r, given.value)
              && again.Some? && (Coerced(py, r, UnionOf(schemas)) == r <==> Coerced(py, r, again.value) == r)
  {
    UnionTakesFirst(py, v, v, schemas);
    var r := Coerced(py, v, UnionOf(schemas));
    UnionTakesFirst(py, r, r, schemas);
    var given := FirstAccepting(py, v, schemas);
    if given.Some? {
      FirstIsAlternative(py, v, schemas, given.value);
      AlternativeIsPlain(schemas, given.value);
      Idempotent(py, v, given.value);
      FirstIsAlternative(py, r, schemas, given.value);
    }
  }

  lemma {:induction false} AlternativeIsPlain(schemas: Schemas, s: Schema)
    requires PlainTuple(schemas) && IsAlternative(s, schemas)
    ensures Plain(s)
  {
    if schemas.head != s {
      AlternativeIsPlain(schemas.tail, s);
    }
  }

  /** With alternatives, coercion need not come to rest: under boolean-or-integer the
      text "1" becomes 1, and 1 becomes true. */
  lemma UnionsNeedNotRest(py: Python)
    requires py.parse("1") == Some(Finite(1.0))
    requires py.valid(Int(1), Leaf("integer")) && py.valid(Bool(true), Leaf("boolean"))
    requires !py.valid(Str("1"), Leaf("boolean"))
    ensures var either := More(Leaf("boolean"), More(Leaf("integer"), NoSchemas));
            var schema := Schema(NoSchemas, either, NoSchemas, [], Absent, Anything, AnyItems);
            && Coerced(py, Str("1"), schema) == Int(1)
            && Coerced(py, Int(1), schema) == Bool(true)
  {
    assert |"1"| != |"true"| && |"1"| != |"false"|;
    assert CoercePrimitive(py, Str("1"), "boolean") == Str("1");
    assert ["boolean"][1..] == [];
    assert FirstChange(py, Str("1"), ["boolean"]) == Str("1");
    assert Coerced(py, Str("1"), Leaf("boolean")) == Str("1");
    assert Coerced(py, Str("1"), Leaf("integer")) == Int(1);
    assert Coerced(py, Int(1), Leaf("boolean")) == Bool(true);
    var both := More(Leaf("boolean"), More(Leaf("integer"), NoSchemas));
    assert CoercedUnion(py, Str("1"), Str("1"), both.tail) == Int(1);
    assert CoercedUnion(py, Str("1"), Str("1"), both) == Int(1);
    assert CoercedUnion(py, Int(1), Int(1), both) == Bool(true);
  }

  // --------------------------------------------------- alternatives of one type each

  /** Whether a value satisfies `{"type": t}`: a float without a fraction is an integer
      to the validator, though not to coercion. */
  predicate FitsType(v: Value, t: string)
  {
    Matches(v, t) || (t == "integer" && v.Float? && Whole(v.x))
  }

  /** What alternatives of one type each need to know of Python: when a value satisfies
      one, and how a few texts and numbers read and print. */
  ghost predicate Faithful(py: Python)
  {
    && (forall v, t :: py.valid(v, Leaf(t)) <==> FitsType(v, t))
    && py.parse("0") == Some(Finite(0.0)) && py.parse("").None? && py.parse("false").None?
    && (forall v: Value :: v.Int? || v.Float? ==> py.show(v) != "" && py.show(v) != "true" && py.show(v) != "false")
    && (forall x :: !Whole(x) && py.parse(py.show(Float(x))).Some? ==> !Whole(py.parse(py.show(Float(x))).value))
  }

  function Leaves(ts: seq<string>): Schemas
  {
    if ts == [] then NoSchemas else More(Leaf(ts[0]), Leaves(ts[1..]))
  }

  /** Whether type `a` takes and changes something that type `b` gave. */
  predicate TakesBack(a: string, b: string)
  {
    match b
    case "number" => a == "boolean" || a == "null"
    case "integer" => a == "boolean" || a == "null"
    case "boolean" => a == "number" || a == "integer" || a == "null"
    case "null" => a == "number" || a == "integer" || a == "boolean"
    case _ => false
  }

  /** Whether type `a` leaves `b` nothing to give that could be taken back. */
  predicate Preempts(a: string, b: string)
  {
    a == b || a == "string" || ((a == "number" || a == "integer") && (b == "number" || b == "integer"))
  }

  /** Some type takes back what a later one gives, and none before that preempts it. */
  predicate TakesSomethingBack(ts: seq<string>)
  {
    exists i, j :: 0 <= i < j < |ts| && TakesBack(ts[i], ts[j]) && forall k :: 0 <= k < j ==> !Preempts(ts[k], ts[j])
  }

  predicate Accepts(py: Python, v: Value, t: string)
  {
    FitsType(CoercePrimitive(py, v, t), t)
  }

  /** The index of the first type that accepts `v`. */
  function FirstOf(py: Python, v: Value, ts: seq<string>): (k: nat)
    ensures k <= |ts| && (k < |ts| ==> Accepts(py, v, ts[k]))
    ensures forall i :: 0 <= i < k ==> !Accepts(py, v, ts[i])
  {
    if ts == [] || Accepts(py, v, ts[0]) then 0
    else
      var k := FirstOf(py, v, ts[1..]);
      assert forall i :: 0 < i <= k ==> ts[i] == ts[1..][i - 1];
      1 + k
  }

  /** What the alternatives make of a value. */
  function Picked(py: Python, v: Value, ts: seq<string>): Value
  {
    var k := FirstOf(py, v, ts);
    if k < |ts| then CoercePrimitive(py, v, ts[k]) else v
  }

  lemma LeafCoerces(py: Python, v: Value, t: string)
    ensures Coerced(py, v, Leaf(t)) == CoercePrimitive(py, v, t)
  {
    assert [t][1..] == [] && FirstChange(py, v, []) == v;
    var r := FirstChange(py, v, [t]);
    assert r == CoercePrimitive(py, v, t);
    if ReadsEntries(r, Leaf(t)) {
      assert CoercedObject(py, r, Leaf(t)).entries == r.entries;
    }
  }

  lemma {:induction false} LeavesCoerce(py: Python, v: Value, ts: seq<string>)
    requires Faithful(py)
    ensures CoercedUnion(py, v, v, Leaves(ts)) == Picked(py, v, ts)
  {
    if ts != [] {
      LeafCoerces(py, v, ts[0]);
      LeavesCoerce(py, v, ts[1..]);
    }
  }

  /** Whether coercing `v` a second time changes nothing. */
  predicate Rests(py: Python, v: Value, s: Schema)
  {
    Coerced(py, Coerced(py, v, s), s) == Coerced(py, v, s)
  }

  lemma AlternativesPick(py: Python, v: Value, ts: seq<string>)
    requires Faithful(py)
    ensures Coerced(py, v, UnionOf(Leaves(ts))) == Picked(py, v, ts)
  {
    UnionUnfolds(py, v, Leaves(ts));
    LeavesCoerce(py, v, ts);
  }

  lemma RestsWhenPickedRests(py: Python, v: Value, ts: seq<string>)
    requires Faithful(py)
    ensures Rests(py, v, UnionOf(Leaves(ts))) <==> Picked(py, Picked(py, v, ts), ts) == Picked(py, v, ts)
  {
    AlternativesPick(py, v, ts);
    AlternativesPick(py, Picked(py, v, ts), ts);
  }

  /** What a type accepts it gives so that it accepts it again, unchanged. */
  lemma AcceptsAgain(py: Python, v: Value, t: string)
    requires Accepts(py, v, t)
    ensures var r := CoercePrimitive(py, v, t); Accepts(py, r, t) && CoercePrimitive(py, r, t) == r
  {
    PrimitiveMatches(py, v, t);
  }

  /** A change to what a later type gave is one of those listed, and would not have
      come about behind a type that preempts it. */
  lemma ChangeTakesBack(py: Python, v: Value, a: string, b: string)
    requires Faithful(py) && Accepts(py, v, b) && !Accepts(py, v, a)
    requires var r := CoercePrimitive(py, v, b); Accepts(py, r, a) && CoercePrimitive(py, r, a) != r
    ensures TakesBack(a, b)
  {
  }

  lemma PreemptedGivesNothing(py: Python, v: Value, a: string, b: string, c: string)
    requires Accepts(py, v, b) && !Accepts(py, v, c) && Preempts(c, b) && TakesBack(a, b)
    ensures var r := CoercePrimitive(py, v, b); CoercePrimitive(py, r, a) == r || !Accepts(py, r, a)
  {
  }

  lemma RestsUnlessTakenBack(py: Python, v: Value, ts: seq<string>)
    requires Faithful(py) && !TakesSomethingBack(ts)
    ensures Picked(py, Picked(py, v, ts), ts) == Picked(py, v, ts)
  {
    var j, r := FirstOf(py, v, ts), Picked(py, v, ts);
    if j < |ts| {
      AcceptsAgain(py, v, ts[j]);
      var i := FirstOf(py, r, ts);
      if i < j && CoercePrimitive(py, r, ts[i]) != r {
        ChangeTakesBack(py, v, ts[i], ts[j]);
        var k :| 0 <= k < j && Preempts(ts[k], ts[j]);
        PreemptedGivesNothing(py, v, ts[i], ts[j], ts[k]);
        assert false;
      }
    }
  }

  /** A value that type `b` takes and gives in a form that is taken back. */
  function TakenBack(b: string): Value
  {
    match b
    case "boolean" => Str("false")
    case "null" => Str("")
    case _ => Str("0")
  }

  lemma TakenBackMeans(py: Python, a: string, b: string)
    requires Faithful(py) && TakesBack(a, b)
    ensures var v := TakenBack(b);
            && Accepts(py, v, b)
            && var r := CoercePrimitive(py, v, b); Accepts(py, r, a)
  {
    assert |"0"| == 1 && |"false"| == 5 && |"true"| == 4;
  }

  /** A type that does not preempt `b` refuses that value, and changes what `b` gives of
      it if it takes that at all. */
  lemma RefusedAndChanged(py: Python, a: string, b: string, t: string)
    requires Faithful(py) && TakesBack(a, b) && !Preempts(t, b)
    ensures var v := TakenBack(b);
            && !Accepts(py, v, t)
            && var r := CoercePrimitive(py, v, b); Accepts(py, r, t) ==> CoercePrimitive(py, r, t) != r
  {
    assert |"0"| == 1 && |"false"| == 5 && |"true"| == 4;
  }

  lemma TakenBackDoesNotRest(py: Python, ts: seq<string>, i: nat, j: nat)
    requires Faithful(py) && i < j < |ts| && TakesBack(ts[i], ts[j])
    requires forall k :: 0 <= k < j ==> !Preempts(ts[k], ts[j])
    ensures var v := TakenBack(ts[j]); Picked(py, Picked(py, v, ts), ts) != Picked(py, v, ts)
  {
    var v := TakenBack(ts[j]);
    TakenBackMeans(py, ts[i], ts[j]);
    forall k | 0 <= k < j ensures !Accepts(py, v, ts[k]) {
      RefusedAndChanged(py, ts[i], ts[j], ts[k]);
    }
    assert FirstOf(py, v, ts) == j;
    var r := Picked(py, v, ts);
    RefusedAndChanged(py, ts[i], ts[j], ts[FirstOf(py, r, ts)]);
  }

  /** Alternatives of one type each bring every value to rest at once exactly when no
      type takes back what a later one gives to a value that those before it refuse. */
  lemma AlternativesRestIff(py: Python, ts: seq<string>)
    requires Faithful(py)
    ensures (forall v :: Rests(py, v, UnionOf(Leaves(ts)))) <==> !TakesSomethingBack(ts)
  {
    if TakesSomethingBack(ts) {
      var i, j :| 0 <= i < j < |ts| && TakesBack(ts[i], ts[j]) && forall k :: 0 <= k < j ==> !Preempts(ts[k], ts[j]);
      TakenBackDoesNotRest(py, ts, i, j);
      RestsWhenPickedRests(py, TakenBack(ts[j]), ts);
    } else {
      forall v ensures Rests(py, v, UnionOf(Leaves(ts))) {
        RestsUnlessTakenBack(py, v, ts);
        RestsWhenPickedRests(py, v, ts);
      }
    }
  }

  /** There is such a Python. */
  lemma FaithfulExists() returns (py: Python)
    ensures Faithful(py)
  {
    py := Python(
      (text: string) => if text == "0" then Some(Finite(0.0)) else None,
      (v: Value) => "?",
      (v: Value, s: Schema) => s.Schema? && |s.types| == 1 && FitsType(v, s.types[0]));
    assert |"0"| == 1 && |"?"| == 1;
  }
}
