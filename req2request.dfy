/**
 * The current `req2request` helper: a use case's request object projected
 * from the request the controller receives, field by field of the use
 * case's request schema, each value cast by the current `castRequest`.
 */
module Req2Request {
  import opened Wrappers
  import opened Js
  import opened Meta
  import CastRequest

  /**
   * The object the loop has built once it has gone through the fields of
   * `schema`, in order: each field's `req[field]`, cast to the field's type,
   * assigned when the cast is not `undefined`.
   */
  function Projected(rt: Runtime, req: Entries<Value>, schema: Entries<TypeDesc>): Entries<Value>
    decreases |schema|
  {
    if schema == [] then []
    else
      var field := schema[|schema| - 1].0;
      var value := CastRequest.Cast(rt, ValueAt(req, field), schema[|schema| - 1].1);
      var out := Projected(rt, req, schema[..|schema| - 1]);
      if value != Undefined then Put(out, field, value) else out
  }

  /** `req2request(req, useCase)` with `useCase.requestSchema` as `schema`. */
  method ToRequest(rt: Runtime, req: Entries<Value>, schema: Entries<TypeDesc>) returns (params: Entries<Value>)
    ensures params == Projected(rt, req, schema)
  {
    params := [];
    var i := 0;
    while i < |schema|
      invariant 0 <= i <= |schema|
      invariant params == Projected(rt, req, schema[..i])
    {
      var field := schema[i].0;
      var value := CastRequest.Cast(rt, ValueAt(req, field), schema[i].1);
      if value != Undefined {
        params := Put(params, field, value);
      }
      assert schema[..i + 1][..i] == schema[..i];
      i := i + 1;
    }
    assert schema[..|schema|] == schema;
  }

  /** The value `req2request` leaves for `k`, if any. */
  function Expected(rt: Runtime, req: Entries<Value>, schema: Entries<TypeDesc>, k: string): Option<Value> {
    match Get(schema, k)
    case None => None
    case Some(t) =>
      var value := CastRequest.Cast(rt, ValueAt(req, k), t);
      if value != Undefined then Some(value) else None
  }

  /**
   * A key is in the output exactly when it is a schema field whose cast
   * value is not `undefined`, and it then holds that value; request keys
   * outside the schema never reach the output.
   */
  lemma {:induction false} ProjectedGet(rt: Runtime, req: Entries<Value>, schema: Entries<TypeDesc>, k: string)
    requires DistinctKeys(schema)
    ensures Get(Projected(rt, req, schema), k) == Expected(rt, req, schema, k)
    decreases |schema|
  {
    if schema != [] {
      var prefix := schema[..|schema| - 1];
      GetLastEntry(schema, k);
      ProjectedGet(rt, req, prefix, k);
    }
  }

  /** Output keys are schema fields. */
  lemma KeysFromSchema(rt: Runtime, req: Entries<Value>, schema: Entries<TypeDesc>, k: string)
    requires DistinctKeys(schema)
    ensures k in Keys(Projected(rt, req, schema)) ==> k in Keys(schema)
  {
    ProjectedGet(rt, req, schema, k);
  }

  /**
   * A request none of whose own keys is a schema field yields the empty
   * object. The controllers hand this helper the object of request sources
   * (`{ query, params }`, `{ body }`, ...), so every field a use case asks for
   * by its own name is dropped.
   */
  lemma {:induction false} SourcesAreNotFields(rt: Runtime, req: Entries<Value>, schema: Entries<TypeDesc>)
    requires forall i :: 0 <= i < |schema| ==> schema[i].0 !in Keys(req)
    ensures Projected(rt, req, schema) == []
    decreases |schema|
  {
    if schema != [] {
      SourcesAreNotFields(rt, req, schema[..|schema| - 1]);
    }
  }

  /** The request schema `{ name: String, number: Number, ids: [Number] }`. */
  const SampleSchema: Entries<TypeDesc> := [("name", Prim("String")), ("number", Prim("Number")), ("ids", ArrayOf(Prim("Number")))]

  lemma SampleSchemaDistinct()
    ensures DistinctKeys(SampleSchema)
  {
  }

  /**
   * The request `{ body: { name: 'test', otherUnused: '' }, params: { number: '1' } }`
   * gives `{}` rather than `{ name: 'test', number: 1 }`.
   */
  lemma SampleRequestIsDropped(rt: Runtime)
    ensures Projected(rt, [("body", Obj([("name", Str("test")), ("otherUnused", Str(""))])), ("params", Obj([("number", Str("1"))]))], SampleSchema) == []
  {
    var req := [("body", Obj([("name", Str("test")), ("otherUnused", Str(""))])), ("params", Obj([("number", Str("1"))]))];
    assert Keys(req) == ["body", "params"];
    SourcesAreNotFields(rt, req, SampleSchema);
  }
}
