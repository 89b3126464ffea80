/** The path template of an endpoint, by the HTTP-method convention. */
module Path {
  import opened Wrappers
  import opened Js
  import opened Meta

  /** `Object.keys(parameters?.params || {})`: the fields of the `params` bucket, in order. */
  function ParamKeys(parameters: Option<Plan>): (ks: seq<string>)
    ensures parameters.None? || "params" !in Keys(parameters.value) ==> ks == []
  {
    if parameters.None? then []
    else
      match Get(parameters.value, "params")
      case None => []
      case Some(fields) => Keys(fields)
  }

  /** `Array.prototype.join` */
  function Join(parts: seq<string>, sep: string): string {
    if parts == [] then ""
    else if |parts| == 1 then parts[0]
    else parts[0] + sep + Join(parts[1..], sep)
  }

  /** One `/:<key>` segment per key, in order. */
  function Template(keys: seq<string>): (t: string)
    ensures keys == [] <==> t == ""
  {
    if keys == [] then "" else "/:" + keys[0] + Template(keys[1..])
  }

  /** The template is the `/:`-prefixed join of the keys, as the source writes it. */
  lemma {:induction false} TemplateIsJoin(keys: seq<string>)
    requires keys != []
    ensures Template(keys) == "/:" + Join(keys, "/:")
  {
    if |keys| > 1 {
      TemplateIsJoin(keys[1..]);
    }
  }

  /** `/<version>/<resource>`, or `/<resource>` without a version. */
  function Base(version: string, resource: string): (b: string)
    ensures version == "" ==> b == "/" + resource
    ensures version != "" ==> b == "/" + version + "/" + resource
  {
    (if version != "" then "/" + version else "") + "/" + resource
  }

  /** The methods that take path parameters: GET (except readAll), PUT and DELETE. */
  predicate TakesPathParameters(verb: string, operation: string) {
    (verb == "GET" && operation != "readAll") || verb == "PUT" || verb == "DELETE"
  }

  /** `Path.build`; nothing (`""`) without a resource. */
  function Build(version: string, verb: string, operation: string, resource: string, parameters: Option<Plan>): (p: string)
    ensures p == "" <==> resource == ""
    ensures resource != "" ==> Base(version, resource) <= p
  {
    if resource == "" then ""
    else if TakesPathParameters(verb, operation) then Base(version, resource) + Template(ParamKeys(parameters))
    else Base(version, resource)
  }

  /** POST, every method outside GET/PUT/DELETE, and GET for readAll never get path parameters. */
  lemma NoPathParameters(version: string, verb: string, operation: string, resource: string, parameters: Option<Plan>)
    requires resource != ""
    requires (verb != "GET" && verb != "PUT" && verb != "DELETE") || (verb == "GET" && operation == "readAll")
    ensures Build(version, verb, operation, resource, parameters) == Base(version, resource)
  {
  }

  /** GET (other operations), PUT and DELETE get one `/:<key>` segment per `params` key, in key order. */
  lemma {:induction false} PathParameters(version: string, verb: string, operation: string, resource: string, plan: Plan)
    requires resource != "" && TakesPathParameters(verb, operation)
    requires "params" in Keys(plan)
    ensures var keys := Keys(Get(plan, "params").value);
      Build(version, verb, operation, resource, Some(plan))
      == Base(version, resource) + (if keys == [] then "" else "/:" + Join(keys, "/:"))
  {
    var keys := Keys(Get(plan, "params").value);
    if keys != [] {
      TemplateIsJoin(keys);
    }
  }

  /** Only the `params` bucket matters: query and body fields never reach the path. */
  lemma OnlyParamsBucket(version: string, verb: string, operation: string, resource: string, plan1: Plan, plan2: Plan)
    requires Get(plan1, "params") == Get(plan2, "params")
    ensures Build(version, verb, operation, resource, Some(plan1)) == Build(version, verb, operation, resource, Some(plan2))
  {
  }

  /** A single `params` field `k` gives the one segment `/:k`. */
  lemma SingleParameter(version: string, verb: string, operation: string, resource: string, k: string, t: TypeDesc)
    requires resource != "" && TakesPathParameters(verb, operation)
    ensures Build(version, verb, operation, resource, Some([("params", [(k, t)])])) == Base(version, resource) + "/:" + k
  {
    assert ParamKeys(Some([("params", [(k, t)])])) == [k];
    assert Template([k]) == "/:" + k + Template([]);
  }

  /** Two ID fields give '/readEntities/:idName/:idName2'. */
  lemma TwoIdFieldsExample()
    ensures Build("", "GET", "read", "readEntities",
                  Some([("params", [("idName", Prim("Number")), ("idName2", Prim("Number"))])]))
            == "/readEntities/:idName/:idName2"
  {
    var fields: Entries<TypeDesc> := [("idName", Prim("Number")), ("idName2", Prim("Number"))];
    var plan: Plan := [("params", fields)];
    assert Keys(fields[1..]) == ["idName2"];
    assert Keys(fields) == ["idName", "idName2"];
    assert ParamKeys(Some(plan)) == ["idName", "idName2"];
    assert Template(["idName2"]) == "/:idName2";
    assert ["idName", "idName2"][1..] == ["idName2"];
    assert Template(["idName", "idName2"]) == "/:idName" + "/:idName2";
    assert "read" != "readAll";
    assert Build("", "GET", "read", "readEntities", Some(plan)) == "/readEntities" + ("/:idName" + "/:idName2");
  }

  /** A versioned read gives '/v1/entityNames/:id'. */
  lemma VersionedExample()
    ensures Build("v1", "GET", "read", "entityNames", Some([("params", [("id", Prim("Number"))])]))
            == "/v1/entityNames/:id"
  {
    assert Template(["id"]) == "/:id";
  }
}
