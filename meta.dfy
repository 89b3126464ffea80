/**
 * Domain metadata shared by every component: type descriptors, entity
 * schemas, parameter plans and references to handler functions.
 */
module Meta {
  import opened Wrappers
  import opened Js

  /**
   * A type descriptor as written in a use case's request schema or an entity
   * field: a built-in constructor (`Number`, `String`, `Boolean`, `Date`,
   * `Object`, `Array`), an array type `[T]`, an entity class, or a plain
   * object `{ k: T }` (what the parameter planner makes of an entity).
   */
  datatype TypeDesc =
    | Prim(name: string)
    | ArrayOf(elem: TypeDesc)
    | Entity(entity: EntityDesc)
    | Shape(fields: Entries<TypeDesc>)

  /** One entry of an entity schema: a method, or a field flagged `isId` or not. */
  datatype SchemaEntry = Method | Field(fieldType: TypeDesc, isId: bool)

  /**
   * An entity class: its name and its schema entries in declaration order.
   * The same list stands for `schema.fields` and `prototype.meta.schema`.
   */
  datatype EntityDesc = EntityDesc(name: string, schema: Entries<SchemaEntry>)

  /** A parameter plan: source (`params`, `query`, `body`) to field to type. */
  type Plan = Entries<Entries<TypeDesc>>

  /** A reference to a function the source stores and calls later. */
  datatype Handler =
    | DefaultController       // the package's default controller
    | DefaultAuthorization    // `req => req.user`
    | ParametersHandler       // the planner's own request handler
    | Custom(name: string)    // a function supplied by the application

  /**
   * The conversions borrowed from the JavaScript runtime and the herbs
   * library, which the model leaves uninterpreted.
   */
  datatype Runtime = Runtime(
    toNumber: Value -> Number,                      // `Number(v)`
    toStr: Value -> string,                         // `String(v)`
    toTime: Value -> Number,                        // the time value of `new Date(v)`
    tryParse: (Value, Option<TypeDesc>) -> Value,   // herbs `tryParse(v, type)`
    fromJSON: (EntityDesc, Value) -> Value)         // `Entity.fromJSON(v)`

  /** The names of the fields an entity flags `isId`, methods skipped. */
  function IdFieldNames(e: Entries<SchemaEntry>): (names: seq<string>)
    ensures forall n :: n in names <==> exists i :: 0 <= i < |e| && e[i].0 == n && e[i].1.Field? && e[i].1.isId
  {
    if e == [] then []
    else
      var rest := IdFieldNames(e[1..]);
      assert forall i :: 1 <= i < |e| ==> e[i] == e[1..][i - 1];
      if e[0].1.Field? && e[0].1.isId then [e[0].0] + rest else rest
  }

  /** The `name: type` pairs of the fields an entity flags `isId`, methods skipped. */
  function IdFields(e: Entries<SchemaEntry>): (fields: Entries<TypeDesc>)
    ensures Keys(fields) == IdFieldNames(e)
    ensures forall p :: p in fields <==> exists i :: 0 <= i < |e| && e[i] == (p.0, Field(p.1, true))
  {
    if e == [] then []
    else
      var rest := IdFields(e[1..]);
      assert forall i :: 1 <= i < |e| ==> e[i] == e[1..][i - 1];
      if e[0].1.Field? && e[0].1.isId then
        var r := [(e[0].0, e[0].1.fieldType)] + rest;
        assert Keys(r) == [e[0].0] + Keys(rest) by { assert r[1..] == rest; }
        r
      else rest
  }

  /** The TypeError of reading `options.isId` off a method of an entity's schema. */
  const IsIdOfUndefined := "TypeError: Cannot read properties of undefined (reading 'isId')"

  /** A schema entry that is a field not flagged `isId`. */
  predicate PlainField(e: SchemaEntry) {
    e.Field? && !e.isId
  }

  /**
   * `find(f => f.options.isId)` over an entity's schema entries: the name of
   * the first field flagged `isId`, or the TypeError a method met before it
   * throws.
   */
  function FirstIdField(schema: Entries<SchemaEntry>): (r: Result<Option<string>, string>)
    ensures r.Failure? ==> r.error == IsIdOfUndefined
    ensures r.Failure? <==> exists i :: 0 <= i < |schema| && schema[i].1.Method? && forall j :: 0 <= j < i ==> PlainField(schema[j].1)
    ensures r == Success(None) <==> forall i :: 0 <= i < |schema| ==> PlainField(schema[i].1)
    ensures r.Success? && r.value.Some? ==>
      exists i :: 0 <= i < |schema| && schema[i].0 == r.value.value && schema[i].1.Field? && schema[i].1.isId &&
        forall j :: 0 <= j < i ==> PlainField(schema[j].1)
  {
    if schema == [] then Success(None)
    else
      var rest := FirstIdField(schema[1..]);
      assert forall i :: 1 <= i < |schema| ==> schema[i] == schema[1..][i - 1];
      if schema[0].1.Method? then Failure(IsIdOfUndefined)
      else if schema[0].1.isId then Success(Some(schema[0].0))
      else rest
  }

  /**
   * On a schema without methods, the field `find` settles on is the first of
   * the ID fields the `filter` of the parameter planners collects.
   */
  lemma {:induction false} FirstIdFieldIsFirstId(schema: Entries<SchemaEntry>)
    requires forall i :: 0 <= i < |schema| ==> schema[i].1.Field?
    ensures FirstIdField(schema) == Success(if IdFieldNames(schema) == [] then None else Some(IdFieldNames(schema)[0]))
  {
    if schema != [] {
      assert forall i :: 1 <= i < |schema| ==> schema[i] == schema[1..][i - 1];
      FirstIdFieldIsFirstId(schema[1..]);
    }
  }
}
