/**
 * The legacy `req2request` helper: the body and query of the request merged
 * (query last), path parameters overriding them, and the result projected on
 * the use case's request schema, each value cast by the legacy
 * `castRequest`.
 */
module LegacyReq2Request {
  import opened Wrappers
  import opened Js
  import opened Meta
  import LegacyCastRequest
  import Req2Request

  /** `castRequestParams(value, type)`, a helper the model leaves uninterpreted. */
  type ParamsCast = (Value, TypeDesc) -> Value

  /** `{ ...req.body, ...req.query }` */
  function Fields(req: HttpRequest): Entries<Value> {
    PutAll(PutAll([], req.body), req.query)
  }

  /** `{ ...req.params }` */
  function Params(req: HttpRequest): Entries<Value> {
    PutAll([], req.params)
  }

  /**
   * The value handed to the cast for `field`: a truthy path parameter,
   * passed through `castRequestParams`, wins; otherwise a query value
   * shadows a body value of the same name; a field in neither reads as
   * `undefined`.
   */
  function Input(castParams: ParamsCast, req: HttpRequest, field: string, t: TypeDesc): (r: Value)
    ensures var p := GetLast(req.params, field).GetOr(Undefined);
      r == if Truthy(p) then castParams(p, t)
        else if field in Keys(req.query) then GetLast(req.query, field).value
        else if field in Keys(req.body) then GetLast(req.body, field).value
        else Undefined
  {
    PutAllGet([], req.params, field);
    PutAllGet(PutAll([], req.body), req.query, field);
    PutAllGet([], req.body, field);
    var p := ValueAt(Params(req), field);
    if Truthy(p) then castParams(p, t) else ValueAt(Fields(req), field)
  }

  /** The cast of one field, or the error it throws. */
  function FieldCast(rt: Runtime, castParams: ParamsCast, req: HttpRequest, field: string, t: TypeDesc): Result<Value, string> {
    LegacyCastRequest.Cast(rt, Input(castParams, req, field, t), t)
  }

  /** How the loop turns a schema field into a value, or the error it throws. */
  type FieldCaster = (string, TypeDesc) -> Result<Value, string>

  /** The legacy helper's field cast for one request. */
  function CastBy(rt: Runtime, castParams: ParamsCast, req: HttpRequest): FieldCaster {
    (field, t) => FieldCast(rt, castParams, req, field, t)
  }

  /**
   * The object the loop has built once it has gone through the fields of
   * `schema`, in order, or the first error a cast throws.
   */
  function Projected(cast: FieldCaster, schema: Entries<TypeDesc>): Result<Entries<Value>, string>
    decreases |schema|
  {
    if schema == [] then Success([])
    else
      var out :- Projected(cast, schema[..|schema| - 1]);
      var field := schema[|schema| - 1].0;
      var value :- cast(field, schema[|schema| - 1].1);
      Success(if value != Undefined then Put(out, field, value) else out)
  }

  /** An error in the first `n` fields is the error of the whole schema. */
  lemma {:induction false} FailureStops(cast: FieldCaster, schema: Entries<TypeDesc>, n: nat)
    requires n <= |schema| && Projected(cast, schema[..n]).Failure?
    ensures Projected(cast, schema) == Projected(cast, schema[..n])
    decreases |schema| - n
  {
    if n < |schema| {
      assert schema[..n + 1][..n] == schema[..n];
      FailureStops(cast, schema, n + 1);
    } else {
      assert schema[..n] == schema;
    }
  }

  /** `req2request(req, usecase)` with `usecase.requestSchema` as `schema`; a thrown error is a `Failure`. */
  method ToRequest(rt: Runtime, castParams: ParamsCast, req: HttpRequest, schema: Entries<TypeDesc>) returns (r: Result<Entries<Value>, string>)
    ensures r == Projected(CastBy(rt, castParams, req), schema)
  {
    var reqFields := PutAll(PutAll([], req.body), req.query);
    var reqParams := PutAll([], req.params);
    var params := [];
    var i := 0;
    while i < |schema|
      invariant 0 <= i <= |schema|
      invariant Projected(CastBy(rt, castParams, req), schema[..i]) == Success(params)
    {
      var field := schema[i].0;
      var value := CastField(rt, castParams, req, reqFields, reqParams, field, schema[i].1);
      ProjectedNext(CastBy(rt, castParams, req), schema, i, params);
      if value.Failure? {
        return Failure(value.error);
      }
      if value.value != Undefined {
        params := Put(params, field, value.value);
      }
      i := i + 1;
    }
    assert schema[..|schema|] == schema;
    return Success(params);
  }

  /** The body of the loop for one field, up to the cast. */
  method CastField(rt: Runtime, castParams: ParamsCast, req: HttpRequest, reqFields: Entries<Value>, reqParams: Entries<Value>, field: string, t: TypeDesc)
    returns (value: Result<Value, string>)
    requires reqFields == Fields(req) && reqParams == Params(req)
    ensures value == CastBy(rt, castParams, req)(field, t)
  {
    var fields := ValueAt(reqFields, field);
    if Truthy(ValueAt(reqParams, field)) {
      fields := castParams(ValueAt(reqParams, field), t);
    }
    value := LegacyCastRequest.Cast(rt, fields, t);
  }

  /** One more field of the loop, after the fields before it have been cast without error. */
  lemma ProjectedNext(cast: FieldCaster, schema: Entries<TypeDesc>, i: nat, params: Entries<Value>)
    requires i < |schema| && Projected(cast, schema[..i]) == Success(params)
    ensures var value := cast(schema[i].0, schema[i].1);
      && (value.Failure? ==> Projected(cast, schema) == Failure(value.error))
      && (value.Success? ==>
            Projected(cast, schema[..i + 1]) == Success(if value.value != Undefined then Put(params, schema[i].0, value.value) else params))
  {
    assert schema[..i + 1][..i] == schema[..i];
    if cast(schema[i].0, schema[i].1).Failure? {
      FailureStops(cast, schema, i + 1);
    }
  }

  /** The call throws exactly when the cast of some schema field throws. */
  lemma {:induction false} ProjectedFails(cast: FieldCaster, schema: Entries<TypeDesc>)
    ensures Projected(cast, schema).Success? <==> forall i :: 0 <= i < |schema| ==> cast(schema[i].0, schema[i].1).Success?
    decreases |schema|
  {
    if schema != [] {
      var prefix := schema[..|schema| - 1];
      ProjectedFails(cast, prefix);
      assert forall i :: 0 <= i < |prefix| ==> prefix[i] == schema[i];
    }
  }

  /** The value `req2request` leaves for `k`, if any, once no cast throws. */
  function Expected(cast: FieldCaster, schema: Entries<TypeDesc>, k: string): Option<Value> {
    match Get(schema, k)
    case None => None
    case Some(t) =>
      var value := cast(k, t);
      if value.Success? && value.value != Undefined then Some(value.value) else None
  }

  /**
   * On success a key is in the output exactly when it is a schema field
   * whose cast value is not `undefined`, and it then holds that value.
   */
  lemma {:induction false} ProjectedGet(cast: FieldCaster, schema: Entries<TypeDesc>, k: string)
    requires DistinctKeys(schema)
    requires Projected(cast, schema).Success?
    ensures Get(Projected(cast, schema).value, k) == Expected(cast, schema, k)
    decreases |schema|
  {
    if schema != [] {
      var prefix := schema[..|schema| - 1];
      GetLastEntry(schema, k);
      ProjectedGet(cast, prefix, k);
    }
  }

  /** The request of the first sample: one body field besides an unused one, and one path parameter. */
  const FirstSampleReq := HttpRequest([("name", Str("test")), ("otherUnused", Str(""))], [], [("number", Str("1"))])

  /** What the first sample request holds under the sample schema's field names. */
  predicate FirstSampleSources(req: HttpRequest) {
    && GetLast(req.params, "name") == None && GetLast(req.params, "number") == Some(Str("1"))
    && GetLast(req.params, "ids") == None
    && GetLast(req.query, "name") == None && GetLast(req.query, "ids") == None
    && GetLast(req.body, "name") == Some(Str("test")) && GetLast(req.body, "ids") == None
  }

  lemma FirstSampleReqSources()
    ensures FirstSampleSources(FirstSampleReq)
  {
    var req := FirstSampleReq;
    GetLastSingle(req.params[0], "name");
    GetLastSingle(req.params[0], "number");
    GetLastSingle(req.params[0], "ids");
    GetLastPair(req.body[0], req.body[1], "name");
    GetLastPair(req.body[0], req.body[1], "ids");
  }

  /** The last occurrence of a key in a one-entry object. */
  lemma GetLastSingle<V>(a: (string, V), k: string)
    ensures GetLast([a], k) == if a.0 == k then Some(a.1) else None
  {
    assert [a][1..] == [];
  }

  /** The last occurrence of a key in a two-entry object. */
  lemma GetLastPair<V>(a: (string, V), b: (string, V), k: string)
    ensures GetLast([a, b], k) == if b.0 == k then Some(b.1) else if a.0 == k then Some(a.1) else None
  {
    assert [a, b][1..] == [b];
    GetLastSingle(b, k);
  }

  /** The fields of a request holding the first sample's values, each cast on its own. */
  lemma FirstSampleCasts(rt: Runtime, castParams: ParamsCast, req: HttpRequest)
    requires rt.toStr(Str("test")) == "test" && rt.toNumber(Str("1")) == Finite(1.0)
    requires castParams(Str("1"), Prim("Number")) == Str("1")
    requires FirstSampleSources(req)
    ensures CastBy(rt, castParams, req)("name", Prim("String")) == Success(Str("test"))
    ensures CastBy(rt, castParams, req)("number", Prim("Number")) == Success(Num(Finite(1.0)))
    ensures CastBy(rt, castParams, req)("ids", ArrayOf(Prim("Number"))) == Success(Undefined)
  {
    LegacyCastRequest.CastScalars(rt, Str("test"), EntityDesc("", []));
    LegacyCastRequest.CastScalars(rt, Str("1"), EntityDesc("", []));
    assert Input(castParams, req, "name", Prim("String")) == Str("test");
    assert Input(castParams, req, "number", Prim("Number")) == Str("1");
    assert Input(castParams, req, "ids", ArrayOf(Prim("Number"))) == Undefined;
    assert FieldCast(rt, castParams, req, "name", Prim("String")) == Success(Str("test"));
    assert FieldCast(rt, castParams, req, "number", Prim("Number")) == Success(Num(Finite(1.0)));
    assert FieldCast(rt, castParams, req, "ids", ArrayOf(Prim("Number"))) == Success(Undefined);
  }

  /** The loop over the sample schema, for casts giving the first sample's values: `ids` is left out. */
  lemma FirstSampleWalk(cast: FieldCaster)
    requires cast("name", Prim("String")) == Success(Str("test"))
    requires cast("number", Prim("Number")) == Success(Num(Finite(1.0)))
    requires cast("ids", ArrayOf(Prim("Number"))) == Success(Undefined)
    ensures Projected(cast, Req2Request.SampleSchema) == Success([("name", Str("test")), ("number", Num(Finite(1.0)))])
  {
    var schema := Req2Request.SampleSchema;
    var prefix := schema[..2];
    assert prefix == [("name", Prim("String")), ("number", Prim("Number"))];
    ProjectedAllDefined(cast, prefix, [Str("test"), Num(Finite(1.0))]);
    var out := Projected(cast, prefix).value;
    assert out == [("name", Str("test")), ("number", Num(Finite(1.0)))];
    assert schema[..|schema| - 1] == prefix;
  }

  /**
   * The body `{ name: 'test', otherUnused: '' }` with the path parameter
   * `number: '1'` and the sample schema gives `{ name: 'test', number: 1 }`:
   * the unused body field is not in the schema and `ids`, found nowhere,
   * is left out.
   */
  lemma FirstSampleRequest(rt: Runtime, castParams: ParamsCast)
    requires rt.toStr(Str("test")) == "test" && rt.toNumber(Str("1")) == Finite(1.0)
    requires castParams(Str("1"), Prim("Number")) == Str("1")
    ensures Projected(CastBy(rt, castParams, FirstSampleReq), Req2Request.SampleSchema)
      == Success([("name", Str("test")), ("number", Num(Finite(1.0)))])
  {
    FirstSampleReqSources();
    FirstSampleCasts(rt, castParams, FirstSampleReq);
    FirstSampleWalk(CastBy(rt, castParams, FirstSampleReq));
  }

  /** The request of the sample: body fields and one path parameter, no query. */
  const SampleReq := HttpRequest([("name", Str("test")), ("number", Str("1")), ("otherUnused", Str(""))], [], [("ids", Str("1"))])

  /** What the sample request holds under the sample schema's field names. */
  predicate SampleSources(req: HttpRequest) {
    && GetLast(req.params, "name") == None && GetLast(req.params, "number") == None
    && GetLast(req.params, "ids") == Some(Str("1"))
    && GetLast(req.query, "name") == None && GetLast(req.query, "number") == None
    && GetLast(req.body, "name") == Some(Str("test")) && GetLast(req.body, "number") == Some(Str("1"))
  }

  lemma SampleReqSources()
    ensures SampleSources(SampleReq)
  {
  }

  /** The fields of a request holding the sample's values, each cast on its own. */
  lemma SampleCasts(rt: Runtime, castParams: ParamsCast, req: HttpRequest)
    requires rt.toStr(Str("test")) == "test" && rt.toNumber(Str("1")) == Finite(1.0)
    requires castParams(Str("1"), ArrayOf(Prim("Number"))) == Arr([Str("1")])
    requires SampleSources(req)
    ensures CastBy(rt, castParams, req)("name", Prim("String")) == Success(Str("test"))
    ensures CastBy(rt, castParams, req)("number", Prim("Number")) == Success(Num(Finite(1.0)))
    ensures CastBy(rt, castParams, req)("ids", ArrayOf(Prim("Number"))) == Success(Arr([Num(Finite(1.0))]))
  {
    LegacyCastRequest.CastScalars(rt, Str("test"), EntityDesc("", []));
    LegacyCastRequest.CastScalars(rt, Str("1"), EntityDesc("", []));
    SampleIdsCast(rt);
    assert Input(castParams, req, "name", Prim("String")) == Str("test");
    assert Input(castParams, req, "number", Prim("Number")) == Str("1");
    assert Input(castParams, req, "ids", ArrayOf(Prim("Number"))) == Arr([Str("1")]);
    assert FieldCast(rt, castParams, req, "name", Prim("String")) == Success(Str("test"));
    assert FieldCast(rt, castParams, req, "number", Prim("Number")) == Success(Num(Finite(1.0)));
    assert FieldCast(rt, castParams, req, "ids", ArrayOf(Prim("Number"))) == Success(Arr([Num(Finite(1.0))]));
  }

  /** `['1']` cast to `[Number]` is `[1]`. */
  lemma SampleIdsCast(rt: Runtime)
    requires rt.toNumber(Str("1")) == Finite(1.0)
    ensures LegacyCastRequest.Cast(rt, Arr([Str("1")]), ArrayOf(Prim("Number"))) == Success(Arr([Num(Finite(1.0))]))
  {
    LegacyCastRequest.CastScalars(rt, Str("1"), EntityDesc("", []));
    LegacyCastRequest.CastArrayOf(rt, Arr([Str("1")]), Prim("Number"));
    var out := LegacyCastRequest.Cast(rt, Arr([Str("1")]), ArrayOf(Prim("Number"))).value;
    assert out.items[0] == Num(Finite(1.0));
    assert out.items == [Num(Finite(1.0))];
  }

  /** The loop over the sample schema, for casts giving the sample's values. */
  lemma SampleWalk(cast: FieldCaster)
    requires cast("name", Prim("String")) == Success(Str("test"))
    requires cast("number", Prim("Number")) == Success(Num(Finite(1.0)))
    requires cast("ids", ArrayOf(Prim("Number"))) == Success(Arr([Num(Finite(1.0))]))
    ensures Projected(cast, Req2Request.SampleSchema) == Success([("name", Str("test")), ("number", Num(Finite(1.0))), ("ids", Arr([Num(Finite(1.0))]))])
  {
    var schema := Req2Request.SampleSchema;
    var values := [Str("test"), Num(Finite(1.0)), Arr([Num(Finite(1.0))])];
    Req2Request.SampleSchemaDistinct();
    forall i | 0 <= i < |schema|
      ensures cast(schema[i].0, schema[i].1) == Success(values[i]) && values[i] != Undefined
    {
      if i == 0 {
      } else if i == 1 {
      } else {
        assert schema[i] == ("ids", ArrayOf(Prim("Number")));
      }
    }
    ProjectedAllDefined(cast, schema, values);
    var out := Projected(cast, schema).value;
    assert |out| == 3 && out[0] == ("name", Str("test")) && out[1] == ("number", Num(Finite(1.0))) && out[2] == ("ids", values[2]);
    assert out == [("name", Str("test")), ("number", Num(Finite(1.0))), ("ids", Arr([Num(Finite(1.0))]))];
  }

  /**
   * When every field's cast is defined, the output lists the schema's fields
   * in schema order with their cast values.
   */
  lemma {:induction false} ProjectedAllDefined(cast: FieldCaster, schema: Entries<TypeDesc>, values: seq<Value>)
    requires DistinctKeys(schema) && |values| == |schema|
    requires forall i :: 0 <= i < |schema| ==> cast(schema[i].0, schema[i].1) == Success(values[i]) && values[i] != Undefined
    ensures Projected(cast, schema).Success? && |Projected(cast, schema).value| == |schema|
    ensures forall i :: 0 <= i < |schema| ==> Projected(cast, schema).value[i] == (schema[i].0, values[i])
    decreases |schema|
  {
    if schema != [] {
      var n := |schema| - 1;
      var prefix := schema[..n];
      assert forall i :: 0 <= i < n ==> prefix[i] == schema[i];
      ProjectedAllDefined(cast, prefix, values[..n]);
      var out := Projected(cast, prefix).value;
      assert schema[n].0 !in Keys(out) by {
        forall i | 0 <= i < |out| ensures Keys(out)[i] != schema[n].0 {
          assert out[i].0 == schema[i].0;
        }
      }
      PutFresh(out, schema[n].0, values[n]);
      assert Projected(cast, schema) == Success(out + [(schema[n].0, values[n])]);
      PairsExtend(out, schema, values);
    }
  }

  /** Appending the last field's pair to the pairs of the fields before it. */
  lemma PairsExtend(out: Entries<Value>, schema: Entries<TypeDesc>, values: seq<Value>)
    requires |schema| == |values| == |out| + 1
    requires forall i :: 0 <= i < |out| ==> out[i] == (schema[..|out|][i].0, values[..|out|][i])
    ensures var res := out + [(schema[|out|].0, values[|out|])];
      forall i :: 0 <= i < |schema| ==> res[i] == (schema[i].0, values[i])
  {
  }

  /**
   * The body `{ name: 'test', number: '1', otherUnused: '' }` with the path
   * parameter `ids: '1'` and the schema `{ name: String, number: Number,
   * ids: [Number] }` gives `{ name: 'test', number: 1, ids: [1] }`, given the
   * conversions and the `castRequestParams` result the runtime supplies.
   */
  lemma SampleRequest(rt: Runtime, castParams: ParamsCast)
    requires rt.toStr(Str("test")) == "test" && rt.toNumber(Str("1")) == Finite(1.0)
    requires castParams(Str("1"), ArrayOf(Prim("Number"))) == Arr([Str("1")])
    ensures Projected(CastBy(rt, castParams, SampleReq), Req2Request.SampleSchema)
      == Success([("name", Str("test")), ("number", Num(Finite(1.0))), ("ids", Arr([Num(Finite(1.0))]))])
  {
    SampleReqSources();
    SampleCasts(rt, castParams, SampleReq);
    SampleWalk(CastBy(rt, castParams, SampleReq));
  }
}
