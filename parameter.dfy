/**
 * The parameter planner: which request source carries which use case
 * field, how a request is read back through that plan, and the plan's JSON
 * form.
 */
module Parameter {
  import opened Wrappers
  import opened Js
  import opened Meta

  // ---------------------------------------------------------------------------
  // Source conventions
  // ---------------------------------------------------------------------------

  /** One row of the source table; `""` where the row names no source. */
  datatype SourcePair = SourcePair(ids: string, payload: string)

  /** `sourcesConvetions` */
  const SourcesConventions: Entries<SourcePair> := [
    ("GET", SourcePair("params", "query")),
    ("POST", SourcePair("", "body")),
    ("PUT", SourcePair("params", "body")),
    ("DELETE", SourcePair("params", ""))
  ]

  /** `sourcesConvetions[method]?.IDs || 'body'` */
  function IdsSource(verb: string): string {
    match Get(SourcesConventions, verb)
    case Some(row) => if row.ids != "" then row.ids else "body"
    case None => "body"
  }

  /** `sourcesConvetions[method]?.payload || 'body'` */
  function PayloadSource(verb: string): string {
    match Get(SourcesConventions, verb)
    case Some(row) => if row.payload != "" then row.payload else "body"
    case None => "body"
  }

  /**
   * GET reads IDs from params and the rest from query, POST everything from
   * body, PUT IDs from params and the rest from body, DELETE IDs from params;
   * every gap in the table, and every other method, falls back to body.
   */
  lemma SourceTable(verb: string)
    ensures verb == "GET" ==> IdsSource(verb) == "params" && PayloadSource(verb) == "query"
    ensures verb == "POST" ==> IdsSource(verb) == "body" && PayloadSource(verb) == "body"
    ensures verb == "PUT" ==> IdsSource(verb) == "params" && PayloadSource(verb) == "body"
    ensures verb == "DELETE" ==> IdsSource(verb) == "params" && PayloadSource(verb) == "body"
    ensures verb !in Keys(SourcesConventions) ==> IdsSource(verb) == "body" && PayloadSource(verb) == "body"
  {
    SourceRow(verb);
  }

  /** IDs and payload travel apart exactly for GET, PUT and DELETE. */
  lemma SourcesSplit(verb: string)
    ensures IdsSource(verb) != PayloadSource(verb) <==> verb == "GET" || verb == "PUT" || verb == "DELETE"
  {
    SourceRow(verb);
  }

  /** The row of the source table a method selects. */
  lemma SourceRow(verb: string)
    ensures Get(SourcesConventions, verb) ==
      if verb == "GET" then Some(SourcePair("params", "query"))
      else if verb == "POST" then Some(SourcePair("", "body"))
      else if verb == "PUT" then Some(SourcePair("params", "body"))
      else if verb == "DELETE" then Some(SourcePair("params", ""))
      else None
  {
    var t := SourcesConventions;
    var t3 := [t[3]] + [];
    var t2 := [t[2]] + t3;
    var t1 := [t[1]] + t2;
    assert t == [t[0]] + t1;
    GetCons(t[3], [], verb);
    GetCons(t[2], t3, verb);
    GetCons(t[1], t2, verb);
    GetCons(t[0], t1, verb);
  }

  // ---------------------------------------------------------------------------
  // build
  // ---------------------------------------------------------------------------

  /** `fromEntity`: an entity class becomes the map of its ID fields to their types. */
  function FromEntity(t: TypeDesc): TypeDesc {
    if t.Entity? then Shape(IdFields(t.entity.schema)) else t
  }

  /** The type a request field is planned with: `fromEntity`, inside the array for `[T]`. */
  function RewriteType(t: TypeDesc): TypeDesc {
    if t.ArrayOf? then ArrayOf(FromEntity(t.elem)) else FromEntity(t)
  }

  /**
   * An entity-typed field keeps only the entity's ID fields, an array of
   * entities becomes a one-element array of that map; other types stay.
   */
  lemma RewriteEntityTypes(e: EntityDesc, t: TypeDesc)
    ensures RewriteType(Entity(e)) == Shape(IdFields(e.schema))
    ensures RewriteType(ArrayOf(Entity(e))) == ArrayOf(Shape(IdFields(e.schema)))
    ensures !t.Entity? && !t.ArrayOf? ==> RewriteType(t) == t
    ensures t.ArrayOf? && !t.elem.Entity? ==> RewriteType(t) == t
    ensures forall p :: p in RewriteType(Entity(e)).fields ==> (p.0, Field(p.1, true)) in e.schema
  {
    forall p | p in IdFields(e.schema)
      ensures (p.0, Field(p.1, true)) in e.schema
    {
      var i :| 0 <= i < |e.schema| && e.schema[i] == (p.0, Field(p.1, true));
    }
  }

  function MapTypes(request: Entries<TypeDesc>): (r: Entries<TypeDesc>)
    ensures Keys(r) == Keys(request)
    ensures forall k :: GetLast(r, k) == (match GetLast(request, k) case Some(t) => Some(RewriteType(t)) case None => None)
  {
    if request == [] then []
    else
      var rest := MapTypes(request[1..]);
      var r := [(request[0].0, RewriteType(request[0].1))] + rest;
      assert r[1..] == rest;
      r
  }

  /** `requestToParameters` */
  function RequestToParameters(request: Entries<TypeDesc>): (r: Entries<TypeDesc>)
    ensures forall k :: Get(r, k) == (match GetLast(request, k) case Some(t) => Some(RewriteType(t)) case None => None)
  {
    FromEntriesGet(MapTypes(request));
    FromEntries(MapTypes(request))
  }

  /** The entity's ID field names (`entityIDs`), none without an entity. */
  function EntityIdNames(entity: Option<EntityDesc>): seq<string> {
    if entity.Some? then IdFieldNames(entity.value.schema) else []
  }

  /**
   * The entries whose key is (`wanted`) or is not (`!wanted`) among `names`,
   * in order: `parametersIDs` / `parametersNotIDs` with their types.
   */
  function Select(params: Entries<TypeDesc>, names: seq<string>, wanted: bool): (r: Entries<TypeDesc>)
    ensures forall p :: p in r <==> p in params && (p.0 in names) == wanted
    ensures forall k :: k in Keys(r) <==> k in Keys(params) && (k in names) == wanted
  {
    if params == [] then []
    else
      var rest := Select(params[1..], names, wanted);
      assert forall p :: p in params <==> p == params[0] || p in params[1..];
      if (params[0].0 in names) == wanted then
        var r := [params[0]] + rest;
        assert r[1..] == rest;
        r
      else rest
  }

  /**
   * The buckets of a plan: the ID fields under `idsSource` when there are
   * any, then the other fields assigned under `payloadSource` when there
   * are any (replacing the ID bucket when both sources are the same).
   */
  function Buckets(idsSource: string, payloadSource: string, ids: Entries<TypeDesc>, others: Entries<TypeDesc>): (plan: Plan)
    ensures forall b :: b in plan ==> b.1 != []
    ensures forall b :: b in plan ==> b.0 == idsSource || b.0 == payloadSource
    ensures DistinctKeys(plan)
  {
    var withIds: Plan := if ids != [] then [(idsSource, ids)] else [];
    if others != [] then
      PutIntoOne(withIds, payloadSource, others);
      Put(withIds, payloadSource, others)
    else withIds
  }

  /**
   * `Parameter.build`: the ID fields go to the method's IDs source, the
   * others to its payload source, and an empty group makes no bucket.
   */
  function Build(verb: string, request: Entries<TypeDesc>, entity: Option<EntityDesc>): (plan: Plan)
    ensures forall b :: b in plan ==> b.1 != []
    ensures forall b :: b in plan ==> b.0 == IdsSource(verb) || b.0 == PayloadSource(verb)
    ensures DistinctKeys(plan)
  {
    var params := RequestToParameters(request);
    var idNames := EntityIdNames(entity);
    Buckets(IdsSource(verb), PayloadSource(verb), Select(params, idNames, true), Select(params, idNames, false))
  }

  /** Assigning into an object of at most one key replaces that key or adds a second one. */
  lemma PutIntoOne<V>(e: Entries<V>, k: string, v: V)
    requires |e| <= 1
    ensures Put(e, k, v) == if e == [] || e[0].0 == k then [(k, v)] else [e[0], (k, v)]
  {
    if e != [] && e[0].0 != k {
      assert e[1..] == [];
    }
  }

  /** The ID fields and the other fields of a request, as `build` partitions them. */
  function IdPart(request: Entries<TypeDesc>, entity: Option<EntityDesc>): Entries<TypeDesc> {
    Select(RequestToParameters(request), EntityIdNames(entity), true)
  }

  function OtherPart(request: Entries<TypeDesc>, entity: Option<EntityDesc>): Entries<TypeDesc> {
    Select(RequestToParameters(request), EntityIdNames(entity), false)
  }

  /** Whether a field of the request appears in some bucket of the plan. */
  predicate Planned(plan: Plan, k: string) {
    exists b :: b in plan && k in Keys(b.1)
  }

  /**
   * The partition: an ID field sits in the IDs source and any other field in
   * the payload source, except that when both map to one source and both
   * groups are non-empty, the payload bucket replaces the ID bucket.
   */
  lemma BuildPartition(verb: string, request: Entries<TypeDesc>, entity: Option<EntityDesc>)
    ensures var plan := Build(verb, request, entity);
      var ids := IdPart(request, entity);
      var others := OtherPart(request, entity);
      && (others != [] ==> Get(plan, PayloadSource(verb)) == Some(others))
      && (ids != [] && (others == [] || IdsSource(verb) != PayloadSource(verb)) ==> Get(plan, IdsSource(verb)) == Some(ids))
      && (ids != [] && others != [] && IdsSource(verb) == PayloadSource(verb) ==> plan == [(PayloadSource(verb), others)])
  {
  }

  /**
   * Every request field is planned exactly when the two groups do not
   * collide: the sources differ, or one of the groups is empty.
   */
  lemma AllFieldsPlannedIff(verb: string, request: Entries<TypeDesc>, entity: Option<EntityDesc>)
    ensures var plan := Build(verb, request, entity);
      (forall k :: k in Keys(RequestToParameters(request)) ==> Planned(plan, k))
      <==> (IdsSource(verb) != PayloadSource(verb) || IdPart(request, entity) == [] || OtherPart(request, entity) == [])
  {
    var plan := Build(verb, request, entity);
    var params := RequestToParameters(request);
    var idNames := EntityIdNames(entity);
    var ids := IdPart(request, entity);
    var others := OtherPart(request, entity);
    BuildPartition(verb, request, entity);
    if IdsSource(verb) != PayloadSource(verb) || ids == [] || others == [] {
      forall k | k in Keys(params)
        ensures Planned(plan, k)
      {
        if k in idNames {
          assert k in Keys(ids);
          assert (IdsSource(verb), ids) in plan;
        } else {
          assert k in Keys(others);
          assert (PayloadSource(verb), others) in plan;
        }
      }
    } else {
      var k := ids[0].0;
      assert k in Keys(ids);
      assert k in idNames && k in Keys(params);
      assert !(k in Keys(others));
      assert plan == [(PayloadSource(verb), others)];
      assert !Planned(plan, k);
    }
  }

  /** A request of one ID field, of a plain type, gives one bucket: the method's IDs source. */
  lemma SingleIdFieldPlan(verb: string, k: string, t: TypeDesc, entity: Option<EntityDesc>)
    requires !t.Entity? && !t.ArrayOf?
    requires k in EntityIdNames(entity)
    ensures Build(verb, [(k, t)], entity) == [(IdsSource(verb), [(k, t)])]
  {
    var request := [(k, t)];
    assert MapTypes(request) == request by {
      assert MapTypes(request[1..]) == [];
    }
    assert RequestToParameters(request) == request by {
      assert PutAll([], request) == PutAll(Put([], k, t), request[1..]);
    }
    var names := EntityIdNames(entity);
    assert Select(request, names, true) == request by {
      assert Select(request[1..], names, true) == [];
    }
    assert Select(request, names, false) == [] by {
      assert Select(request[1..], names, false) == [];
    }
  }

  // ---------------------------------------------------------------------------
  // cast
  // ---------------------------------------------------------------------------

  /** `toArray`: an array as it is, anything else as a singleton. */
  function Wrap(value: Value): (items: seq<Value>)
    ensures value.Arr? ==> items == value.items
    ensures !value.Arr? ==> items == [value]
  {
    if value.Arr? then value.items else [value]
  }

  /**
   * `Parameter.cast` against a type: an array type casts every element of
   * the wrapped value, a truthy value of an entity type goes through the
   * entity's `fromJSON`, and anything else through herbs' `tryParse`.
   */
  function CastTo(rt: Runtime, value: Value, t: TypeDesc): (r: Value)
    ensures t.ArrayOf? ==> r.Arr? && |r.items| == |Wrap(value)|
    ensures t.ArrayOf? ==> forall i :: 0 <= i < |r.items| ==> r.items[i] == CastTo(rt, Wrap(value)[i], t.elem)
    decreases t
  {
    match t
    case ArrayOf(elem) =>
      var items := Wrap(value);
      Arr(seq(|items|, i requires 0 <= i < |items| => CastTo(rt, items[i], elem)))
    case Entity(e) => if Truthy(value) then rt.fromJSON(e, value) else rt.tryParse(value, Some(t))
    case _ => rt.tryParse(value, Some(t))
  }

  /** `Parameter.cast` where the type may be missing (`requestSchema[param]` of an unknown field). */
  function Cast(rt: Runtime, value: Value, t: Option<TypeDesc>): (r: Value)
    ensures t.None? ==> r == rt.tryParse(value, None)
    ensures t.Some? && t.value.ArrayOf? ==>
      r.Arr? && |r.items| == |Wrap(value)| && forall i :: 0 <= i < |r.items| ==> r.items[i] == CastTo(rt, Wrap(value)[i], t.value.elem)
    ensures t.Some? && t.value.Entity? ==> r == if Truthy(value) then rt.fromJSON(t.value.entity, value) else rt.tryParse(value, t)
    ensures t.Some? && !t.value.ArrayOf? && !t.value.Entity? ==> r == rt.tryParse(value, t)
  {
    match t
    case Some(t) => CastTo(rt, value, t)
    case None => rt.tryParse(value, None)
  }

  /** A non-array value cast to an array type becomes a one-element array. */
  lemma CastWrapsScalar(rt: Runtime, value: Value, elem: TypeDesc)
    requires !value.Arr?
    ensures CastTo(rt, value, ArrayOf(elem)) == Arr([CastTo(rt, value, elem)])
  {
    var r := CastTo(rt, value, ArrayOf(elem));
    assert |r.items| == 1;
  }

  // ---------------------------------------------------------------------------
  // handler
  // ---------------------------------------------------------------------------

  /** The cast values of one bucket, read from the request source. */
  function BucketValues(rt: Runtime, src: Entries<Value>, fields: Entries<TypeDesc>): (r: Entries<Value>)
    ensures Keys(r) == Keys(fields)
    ensures forall k :: GetLast(r, k) == (match GetLast(fields, k) case Some(t) => Some(CastTo(rt, ValueAt(src, k), t)) case None => None)
  {
    if fields == [] then []
    else
      var rest := BucketValues(rt, src, fields[1..]);
      var r := [(fields[0].0, CastTo(rt, ValueAt(src, fields[0].0), fields[0].1))] + rest;
      assert r[1..] == rest;
      r
  }

  /** One step of the first loop: the bucket's first field is cast and assigned. */
  lemma PutAllBucketStep(rt: Runtime, src: Entries<Value>, fields: Entries<TypeDesc>, e: Entries<Value>)
    requires fields != []
    ensures PutAll(e, BucketValues(rt, src, fields))
         == PutAll(Put(e, fields[0].0, CastTo(rt, ValueAt(src, fields[0].0), fields[0].1)), BucketValues(rt, src, fields[1..]))
  {
  }

  /** Every source the plan names is one the request has. */
  predicate SourcesPresent(req: HttpRequest, plan: Plan) {
    forall b :: b in plan ==> Source(req, b.0).Some?
  }

  /** The first loop of `handler`: bucket after bucket, each field cast and assigned. */
  function FirstPass(rt: Runtime, req: HttpRequest, plan: Plan): Entries<Value>
    requires SourcesPresent(req, plan)
  {
    if plan == [] then []
    else
      var last := plan[|plan| - 1];
      PutAll(FirstPass(rt, req, plan[..|plan| - 1]), BucketValues(rt, Source(req, last.0).value, last.1))
  }

  /** The second loop of `handler`: every value re-cast against the use case's request schema. */
  function SecondPass(rt: Runtime, schema: Entries<TypeDesc>, r: Entries<Value>): (s: Entries<Value>)
    ensures |s| == |r|
    ensures forall i :: 0 <= i < |r| ==> s[i] == (r[i].0, Cast(rt, r[i].1, Get(schema, r[i].0)))
  {
    seq(|r|, i requires 0 <= i < |r| => (r[i].0, Cast(rt, r[i].1, Get(schema, r[i].0))))
  }

  /**
   * `Parameter.handler`: nested loops over the plan's sources and fields,
   * then a loop re-casting every collected value.  Reading a source the
   * request lacks is a TypeError in the source, so the plan's sources must
   * be present.
   */
  method Handler(rt: Runtime, requestSchema: Entries<TypeDesc>, req: HttpRequest, plan: Plan) returns (result: Entries<Value>)
    requires SourcesPresent(req, plan)
    ensures result == SecondPass(rt, requestSchema, FirstPass(rt, req, plan))
  {
    result := [];
    for i := 0 to |plan|
      invariant result == FirstPass(rt, req, plan[..i])
    {
      assert plan[i] in plan;
      result := AssignBucket(rt, Source(req, plan[i].0).value, plan[i].1, result);
      assert plan[..i + 1][..i] == plan[..i] && plan[..i + 1][i] == plan[i];
    }
    assert plan[..|plan|] == plan;
    result := Recast(rt, requestSchema, result);
  }

  /** The inner loop of the first pass: each field of one bucket cast and assigned onto `start`. */
  method AssignBucket(rt: Runtime, src: Entries<Value>, fields: Entries<TypeDesc>, start: Entries<Value>) returns (result: Entries<Value>)
    ensures result == PutAll(start, BucketValues(rt, src, fields))
  {
    result := start;
    for j := 0 to |fields|
      invariant PutAll(result, BucketValues(rt, src, fields[j..])) == PutAll(start, BucketValues(rt, src, fields))
    {
      var param := fields[j].0;
      var value := ValueAt(src, param);
      assert fields[j..][0] == fields[j] && fields[j..][1..] == fields[j + 1..];
      PutAllBucketStep(rt, src, fields[j..], result);
      result := Put(result, param, CastTo(rt, value, fields[j].1));
    }
    assert fields[|fields|..] == [];
  }

  /** The second loop of `handler`, re-casting every collected value in place. */
  method Recast(rt: Runtime, requestSchema: Entries<TypeDesc>, collected: Entries<Value>) returns (result: Entries<Value>)
    ensures result == SecondPass(rt, requestSchema, collected)
  {
    result := collected;
    for i := 0 to |result|
      invariant |result| == |collected|
      invariant forall j :: 0 <= j < i ==> result[j] == SecondPass(rt, requestSchema, collected)[j]
      invariant forall j :: i <= j < |result| ==> result[j] == collected[j]
    {
      var param := result[i].0;
      result := result[i := (param, Cast(rt, result[i].1, Get(requestSchema, param)))];
    }
  }

  /** The re-cast keeps every key and casts each value against the schema's type for it. */
  lemma {:induction false} SecondPassGet(rt: Runtime, schema: Entries<TypeDesc>, r: Entries<Value>, k: string)
    ensures Get(SecondPass(rt, schema, r), k)
         == (match Get(r, k) case Some(v) => Some(Cast(rt, v, Get(schema, k))) case None => None)
  {
    if r != [] {
      assert SecondPass(rt, schema, r)[1..] == SecondPass(rt, schema, r[1..]);
      SecondPassGet(rt, schema, r[1..], k);
    }
  }

  /** The handler's keys are exactly the field names across all the plan's buckets. */
  lemma {:induction false} FirstPassKeys(rt: Runtime, req: HttpRequest, plan: Plan, k: string)
    requires SourcesPresent(req, plan)
    ensures k in Keys(FirstPass(rt, req, plan)) <==> Planned(plan, k)
  {
    if plan != [] {
      var init := plan[..|plan| - 1];
      var last := plan[|plan| - 1];
      FirstPassKeys(rt, req, init, k);
      PutAllGet(FirstPass(rt, req, init), BucketValues(rt, Source(req, last.0).value, last.1), k);
      assert forall b :: b in plan <==> b in init || b == last;
    }
  }

  /**
   * A later source overwrites an earlier one: a field takes the value read
   * from the last bucket that names it, cast with that bucket's type.
   */
  lemma {:induction false} FirstPassLastWins(rt: Runtime, req: HttpRequest, plan: Plan, i: nat, k: string)
    requires SourcesPresent(req, plan)
    requires i < |plan| && k in Keys(plan[i].1)
    requires forall j :: i < j < |plan| ==> k !in Keys(plan[j].1)
    ensures Get(FirstPass(rt, req, plan), k)
         == Some(CastTo(rt, ValueAt(Source(req, plan[i].0).value, k), GetLast(plan[i].1, k).value))
  {
    var init := plan[..|plan| - 1];
    var last := plan[|plan| - 1];
    PutAllGet(FirstPass(rt, req, init), BucketValues(rt, Source(req, last.0).value, last.1), k);
    if i < |plan| - 1 {
      assert init[i] == plan[i];
      FirstPassLastWins(rt, req, init, i, k);
    }
  }

  /**
   * What the handler returns for a field: the value from the last source
   * that plans it, cast with the plan's type and then with the schema's.
   */
  lemma HandlerField(rt: Runtime, schema: Entries<TypeDesc>, req: HttpRequest, plan: Plan, i: nat, k: string)
    requires SourcesPresent(req, plan)
    requires i < |plan| && k in Keys(plan[i].1)
    requires forall j :: i < j < |plan| ==> k !in Keys(plan[j].1)
    ensures Get(SecondPass(rt, schema, FirstPass(rt, req, plan)), k)
         == Some(Cast(rt, CastTo(rt, ValueAt(Source(req, plan[i].0).value, k), GetLast(plan[i].1, k).value), Get(schema, k)))
  {
    FirstPassLastWins(rt, req, plan, i, k);
    SecondPassGet(rt, schema, FirstPass(rt, req, plan), k);
  }

  // ---------------------------------------------------------------------------
  // toJSON
  // ---------------------------------------------------------------------------

  /** A JSON value as `toJSON` produces it. */
  datatype Json = JStr(s: string) | JArr(items: seq<Json>) | JObj(props: Entries<Json>)

  /** `value.name` of a constructor or an entity class. */
  function NameOf(t: TypeDesc): string
    requires t.Prim? || t.Entity?
  {
    if t.Prim? then t.name else t.entity.name
  }

  /** `stringifyValue`: an array type becomes a one-element array, an object its map, a class its name. */
  function StringifyValue(t: TypeDesc): Json
    decreases t, 1
  {
    match t
    case ArrayOf(elem) => JArr([StringifyObj(elem)])
    case Shape(_) => StringifyObj(t)
    case _ => JStr(NameOf(t))
  }

  /**
   * `stringifyObj`: a class goes back to `stringifyValue` (its name), an
   * object maps every key, and an array, being an object, maps its one
   * index `"0"`.
   */
  function StringifyObj(t: TypeDesc): Json
    decreases t, 0
  {
    match t
    case ArrayOf(elem) => JObj([("0", StringifyValue(elem))])
    case Shape(fields) =>
      JObj(seq(|fields|, i requires 0 <= i < |fields| =>
        assert fields[i] in fields; (fields[i].0, StringifyValue(fields[i].1))))
    case _ => JStr(NameOf(t))
  }

  /** `Parameter.toJSON` */
  function ToJson(plan: Plan): (r: Json)
    ensures r.JObj? && |r.props| == |plan|
    ensures forall i :: 0 <= i < |plan| ==>
      && r.props[i].0 == plan[i].0 && r.props[i].1.JObj? && |r.props[i].1.props| == |plan[i].1|
      && forall j :: 0 <= j < |plan[i].1| ==> r.props[i].1.props[j].0 == plan[i].1[j].0
  {
    JObj(seq(|plan|, i requires 0 <= i < |plan| => (plan[i].0, StringifyObj(Shape(plan[i].1)))))
  }

  /**
   * `toJSON` keeps every source and every field, in order; a class becomes
   * its name, `[T]` a one-element array, and an object recurses.
   */
  lemma ToJsonShape(plan: Plan, i: nat, j: nat)
    requires i < |plan| && j < |plan[i].1|
    ensures var out := ToJson(plan);
      && out.JObj? && |out.props| == |plan| && out.props[i].0 == plan[i].0
      && out.props[i].1.JObj? && |out.props[i].1.props| == |plan[i].1|
      && out.props[i].1.props[j] == (plan[i].1[j].0, StringifyValue(plan[i].1[j].1))
  {
  }

  lemma StringifyValueCases(t: TypeDesc, n: string, fields: Entries<TypeDesc>)
    ensures StringifyValue(Prim(n)) == JStr(n)
    ensures StringifyValue(ArrayOf(Prim(n))) == JArr([JStr(n)])
    ensures StringifyValue(ArrayOf(Shape(fields))) == JArr([StringifyValue(Shape(fields))])
    ensures StringifyValue(Shape(fields)).JObj?
    ensures Keys(StringifyValue(Shape(fields)).props) == Keys(fields)
  {
    assert StringifyValue(Shape(fields)) == StringifyObj(Shape(fields));
    var out := StringifyValue(Shape(fields)).props;
    assert |out| == |fields| && forall i :: 0 <= i < |out| ==> out[i].0 == fields[i].0;
    KeysIndexwise(out, fields);
  }

  lemma {:induction false} KeysIndexwise<V, W>(a: Entries<V>, b: Entries<W>)
    requires |a| == |b| && forall i :: 0 <= i < |a| ==> a[i].0 == b[i].0
    ensures Keys(a) == Keys(b)
  {
    if a != [] {
      KeysIndexwise(a[1..], b[1..]);
    }
  }
}
