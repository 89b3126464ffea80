/**
 * The older metadata populator: for every registered use case, the REST
 * metadata (verb, resource, path, parameters and controller) is the use
 * case's own REST entry where one is set and the default convention's
 * otherwise, and it is written back onto the use case.
 */
module PopulateMetadata {
  import opened Wrappers
  import opened Js
  import opened Meta
  import Resource
  import Parameter
  import HttpMethod
  import Path

  /** REST metadata of a use case; `""` and `None` stand for an entry that is missing or falsy. */
  datatype RestMetadata = RestMetadata(verb: string, path: string, resource: string, params: Option<Plan>, controller: Option<Handler>)

  /** A use case whose metadata has no `REST` entry. */
  const NoRest := RestMetadata("", "", "", None, None)

  /** What the populator reads of a registered use case, and the REST metadata it holds. */
  datatype UseCaseInfo = UseCaseInfo(
    operation: string,                  // the CRUD tag; "" when the metadata has none
    entity: Option<EntityDesc>,
    group: string,                      // "" when the metadata has none
    requestSchema: Entries<TypeDesc>,   // the request schema of the use case its factory builds
    rest: RestMetadata)

  // ---------------------------------------------------------------------------
  // The default convention
  // ---------------------------------------------------------------------------

  /** `crudToVerb`: read and readAll are GET, create is POST, update PUT, delete DELETE, anything else POST. */
  function CrudToVerb(crud: string): (verb: string)
    ensures verb == "GET" <==> crud == "read" || crud == "readAll"
    ensures verb == "PUT" <==> crud == "update"
    ensures verb == "DELETE" <==> crud == "delete"
    ensures verb == "POST" <==> crud != "read" && crud != "readAll" && crud != "update" && crud != "delete"
  {
    if crud == "read" || crud == "readAll" then "GET"
    else if crud == "create" then "POST"
    else if crud == "update" then "PUT"
    else if crud == "delete" then "DELETE"
    else "POST"
  }

  /** The populator's verb table is the one the endpoint builders derive their method from. */
  lemma CrudToVerbAgrees(crud: string)
    ensures CrudToVerb(crud) == HttpMethod.FromOperation(crud)
  {
    if crud == "read" || crud == "readAll" || crud == "create" || crud == "update" || crud == "delete" {
      HttpMethod.FromOperationTable();
    } else {
      HttpMethod.NoRow(crud);
    }
  }

  /**
   * `toResourceName`: the entity's name, or the group when the entity has
   * none, made plural and camel-cased; nothing (`""`) when neither is set.
   */
  function ToResourceName(entity: Option<EntityDesc>, group: string): (r: string)
    ensures r == Resource.Build(entity, group)
    ensures r == "" <==> (entity.None? || entity.value.name == "") && group == ""
  {
    var name := if entity.Some? && entity.value.name != "" then entity.value.name else group;
    if name == "" then "" else Resource.ToCamelCase(Resource.ToPlural(name))
  }

  /** The CRUD operations that address one resource by its id. */
  predicate AddressesOne(crud: string) {
    crud == "read" || crud == "update" || crud == "delete"
  }

  /**
   * `crudToPath`: `/<resource>/:id` for read, update and delete,
   * `/<resource>` for every other operation; nothing (`""`) without a resource.
   */
  function CrudToPath(crud: string, resource: string): (path: string)
    ensures path == "" <==> resource == ""
    ensures resource != "" && AddressesOne(crud) ==> path == "/" + resource + "/:id"
    ensures resource != "" && !AddressesOne(crud) ==> path == "/" + resource
  {
    if resource == "" then ""
    else if crud == "read" then "/" + resource + "/:id"
    else if crud == "readAll" then "/" + resource
    else if crud == "create" then "/" + resource
    else if crud == "update" then "/" + resource + "/:id"
    else if crud == "delete" then "/" + resource + "/:id"
    else "/" + resource
  }

  /**
   * The populator's default path is the builders' path convention, without
   * a version, for the operation's own method and a `params` bucket holding
   * only `id`.
   */
  lemma CrudToPathAgrees(crud: string, resource: string, t: TypeDesc)
    requires resource != ""
    ensures CrudToPath(crud, resource) == Path.Build("", CrudToVerb(crud), crud, resource, Some([("params", [("id", t)])]))
  {
    if Path.TakesPathParameters(CrudToVerb(crud), crud) {
      Path.SingleParameter("", CrudToVerb(crud), crud, resource, "id", t);
    }
  }

  /**
   * `entityIDs`: the names of the schema entries flagged `isId`. The filter
   * reads `options.isId` of every entry, so a method in the schema fails.
   */
  function SchemaIdNames(schema: Entries<SchemaEntry>): (r: Result<seq<string>, string>)
    ensures r.Failure? <==> exists i :: 0 <= i < |schema| && schema[i].1.Method?
    ensures r.Failure? ==> r.error == IsIdOfUndefined
    ensures r.Success? ==> r.value == IdFieldNames(schema)
  {
    if schema == [] then Success([])
    else if schema[0].1.Method? then Failure(IsIdOfUndefined)
    else
      var rest := SchemaIdNames(schema[1..]);
      assert forall i :: 1 <= i < |schema| ==> schema[i] == schema[1..][i - 1];
      match rest
      case Failure(e) => Failure(e)
      case Success(names) => Success(if schema[0].1.isId then [schema[0].0] + names else names)
  }

  /** Whether the entity's schema holds a method, on which `toRequestParams` fails. */
  predicate HasMethod(entity: Option<EntityDesc>) {
    entity.Some? && exists i :: 0 <= i < |entity.value.schema| && entity.value.schema[i].1.Method?
  }

  /**
   * `toRequestParams`: the ID fields of `params` under the verb's IDs
   * source, the others under its payload source, an empty group making no
   * bucket, and the payload bucket replacing the ID bucket when both
   * sources are the same.
   */
  function ToRequestParams(verb: string, entity: Option<EntityDesc>, params: Entries<TypeDesc>): (r: Result<Plan, string>)
    ensures r.Failure? <==> HasMethod(entity)
    ensures r.Failure? ==> r.error == IsIdOfUndefined
    ensures r.Success? ==> forall b :: b in r.value ==> b.1 != [] && (b.0 == Parameter.IdsSource(verb) || b.0 == Parameter.PayloadSource(verb))
  {
    var ids := if entity.Some? then SchemaIdNames(entity.value.schema) else Success([]);
    match ids
    case Failure(e) => Failure(e)
    case Success(names) =>
      Success(Parameter.Buckets(Parameter.IdsSource(verb), Parameter.PayloadSource(verb),
                                Parameter.Select(params, names, true), Parameter.Select(params, names, false)))
  }

  /**
   * Where `toRequestParams` puts the fields: the non-ID fields in the
   * payload source, the ID fields in the IDs source unless the payload
   * bucket replaced them there.
   */
  lemma ToRequestParamsPartition(verb: string, entity: Option<EntityDesc>, params: Entries<TypeDesc>)
    requires !HasMethod(entity)
    ensures var plan := ToRequestParams(verb, entity, params).value;
      var names := Parameter.EntityIdNames(entity);
      var ids := Parameter.Select(params, names, true);
      var others := Parameter.Select(params, names, false);
      && (others != [] ==> Get(plan, Parameter.PayloadSource(verb)) == Some(others))
      && (ids != [] && (others == [] || Parameter.IdsSource(verb) != Parameter.PayloadSource(verb)) ==> Get(plan, Parameter.IdsSource(verb)) == Some(ids))
      && (ids != [] && others != [] && Parameter.IdsSource(verb) == Parameter.PayloadSource(verb) ==> plan == [(Parameter.PayloadSource(verb), others)])
      && (ids == [] && others == [] ==> plan == [])
  {
  }

  /** A request of entity-free types keeps its types through the builders' rewrite. */
  predicate EntityFree(request: Entries<TypeDesc>) {
    forall i :: 0 <= i < |request| ==> Parameter.RewriteType(request[i].1) == request[i].1
  }

  lemma {:induction false} MapTypesEntityFree(request: Entries<TypeDesc>)
    requires EntityFree(request)
    ensures Parameter.MapTypes(request) == request
  {
    if request != [] {
      assert EntityFree(request[1..]) by {
        assert forall i :: 0 <= i < |request[1..]| ==> request[1..][i] == request[i + 1];
      }
      MapTypesEntityFree(request[1..]);
      assert request == [request[0]] + request[1..];
    }
  }

  /**
   * The older populator and the builders' planner make the same plan for a
   * request whose fields are not entities, when the entity's schema has no
   * method; the populator alone fails on a method.
   */
  lemma PlannersAgree(verb: string, entity: Option<EntityDesc>, request: Entries<TypeDesc>)
    requires EntityFree(request)
    ensures !HasMethod(entity) ==> ToRequestParams(verb, entity, FromEntries(request)) == Success(Parameter.Build(verb, request, entity))
    ensures HasMethod(entity) ==> ToRequestParams(verb, entity, FromEntries(request)) == Failure(IsIdOfUndefined)
  {
    MapTypesEntityFree(request);
  }

  // ---------------------------------------------------------------------------
  // One use case
  // ---------------------------------------------------------------------------

  /** The error for a use case no resource name can be made for. */
  function NoResourceError(name: string): string {
    "It is not possible to generate a REST resource name for usecase " + name
    + ". Please, add a group or entity to the usecase metadata."
  }

  /** The operation the convention works from: the use case's own, `other` without one. */
  function Crud(info: UseCaseInfo): string {
    if info.operation != "" then info.operation else "other"
  }

  /** The resource the populator settles on: the override, else the convention's name. */
  function ResourceOf(info: UseCaseInfo): string {
    if info.rest.resource != "" then info.rest.resource else ToResourceName(info.entity, info.group)
  }

  /**
   * The REST metadata the populator writes for the use case `name`: every
   * entry is the override when it is set and the convention otherwise; the
   * controller is the override, then `controller`, then the default one.
   * Planning the parameters fails on an entity schema holding a method,
   * and a use case left without a resource name is an error.
   */
  function Populated(name: string, info: UseCaseInfo, controller: Option<Handler>): (r: Result<RestMetadata, string>)
    ensures r.Failure? <==> (info.rest.params.None? && HasMethod(info.entity)) || ResourceOf(info) == ""
    ensures r.Failure? && !(info.rest.params.None? && HasMethod(info.entity)) ==> r.error == NoResourceError(name)
    ensures r.Failure? && info.rest.params.None? && HasMethod(info.entity) ==> r.error == IsIdOfUndefined
    ensures r.Success? ==> && r.value.verb != "" && r.value.resource != "" && r.value.path != ""
                           && r.value.params.Some? && r.value.controller.Some?
  {
    var crud := Crud(info);
    var o := info.rest;
    var verb := if o.verb != "" then o.verb else CrudToVerb(crud);
    var resource := ResourceOf(info);
    var path := if o.path != "" then o.path else CrudToPath(crud, resource);
    var params := if o.params.Some? then Success(o.params.value) else ToRequestParams(verb, info.entity, FromEntries(info.requestSchema));
    var ctlr := if o.controller.Some? then o.controller else if controller.Some? then controller else Some(DefaultController);
    if params.Failure? then Failure(params.error)
    else if resource == "" then Failure(NoResourceError(name))
    else Success(RestMetadata(verb, path, resource, Some(params.value), ctlr))
  }

  /**
   * Precedence: a set override is kept as it is; a missing one is the
   * convention's, the path from the operation and the resolved resource,
   * the parameters from the resolved verb.
   */
  lemma PopulatedPrecedence(name: string, info: UseCaseInfo, controller: Option<Handler>)
    requires Populated(name, info, controller).Success?
    ensures var m := Populated(name, info, controller).value;
      var o := info.rest;
      && m.verb == (if o.verb != "" then o.verb else CrudToVerb(Crud(info)))
      && m.resource == (if o.resource != "" then o.resource else ToResourceName(info.entity, info.group))
      && m.path == (if o.path != "" then o.path else CrudToPath(Crud(info), m.resource))
      && m.params == (if o.params.Some? then o.params else Some(ToRequestParams(m.verb, info.entity, FromEntries(info.requestSchema)).value))
  {
  }

  /** The controller is the use case's own, else the one given to the populator, else the default controller. */
  lemma PopulatedController(name: string, info: UseCaseInfo, controller: Option<Handler>)
    requires Populated(name, info, controller).Success?
    ensures var c := Populated(name, info, controller).value.controller;
      && (info.rest.controller.Some? ==> c == info.rest.controller)
      && (info.rest.controller.None? && controller.Some? ==> c == controller)
      && (info.rest.controller.None? && controller.None? ==> c == Some(DefaultController))
  {
  }

  /**
   * The path follows the operation, not the verb: overriding the verb
   * leaves the path as it was and moves only the parameters.
   */
  lemma PathIgnoresVerb(name: string, info: UseCaseInfo, controller: Option<Handler>, verb: string)
    requires Populated(name, info, controller).Success?
    ensures var info' := info.(rest := info.rest.(verb := verb));
      && Populated(name, info', controller).Success?
      && Populated(name, info', controller).value.path == Populated(name, info, controller).value.path
      && Populated(name, info', controller).value.resource == Populated(name, info, controller).value.resource
  {
  }

  /** Populated metadata is its own fixed point: every entry is now an override that wins. */
  lemma PopulatedFixed(name: string, info: UseCaseInfo, controller: Option<Handler>)
    requires Populated(name, info, controller).Success?
    ensures var m := Populated(name, info, controller).value;
      Populated(name, info.(rest := m), controller) == Success(m)
  {
  }

  /** The entity `read Entity` with the ID field `id: Number` and the field `name: String`. */
  const ReadEntity := EntityDesc("read Entity", [("id", Field(Prim("Number"), true)), ("name", Field(Prim("String"), false))])

  /** A `read` use case of the group `Test` linked to `ReadEntity`, requesting `id: Number`. */
  const ReadInfo := UseCaseInfo("read", Some(ReadEntity), "Test", [("id", Prim("Number"))], NoRest)

  /** The request `{ id: Number }` is planned in the verb's IDs source. */
  lemma ReadPlan(verb: string)
    ensures ToRequestParams(verb, ReadInfo.entity, FromEntries(ReadInfo.requestSchema))
         == Success([(Parameter.IdsSource(verb), [("id", Prim("Number"))])])
  {
    var schema := ReadEntity.schema;
    assert SchemaIdNames(schema[1..][1..]) == Success([]);
    assert SchemaIdNames(schema[1..]) == Success([]);
    assert schema[0] == ("id", Field(Prim("Number"), true)) && ["id"] + [] == ["id"];
    assert SchemaIdNames(schema) == Success(["id"]);
    var request := ReadInfo.requestSchema;
    Js.FromEntriesDistinct(request);
    assert Parameter.Select(request[1..], ["id"], true) == [];
    assert Parameter.Select(request, ["id"], true) == request;
    assert Parameter.Select(request[1..], ["id"], false) == [];
    assert Parameter.Select(request, ["id"], false) == [];
  }

  lemma ReadEntitiesPath()
    ensures CrudToPath("read", "readEntities") == "/readEntities/:id"
  {
    var p := "/" + "readEntities" + "/:id";
    assert forall i :: 0 <= i < 17 ==> p[i] == "/readEntities/:id"[i];
  }

  /**
   * A read use case with domain metadata only gets GET, `readEntities`,
   * `/readEntities/:id`, its `id` in `params`, and the default controller.
   */
  lemma ReadExample()
    ensures Populated("readUsecase", ReadInfo, None)
         == Success(RestMetadata("GET", "/readEntities/:id", "readEntities", Some([("params", [("id", Prim("Number"))])]), Some(DefaultController)))
  {
    Resource.BuildReadEntityExample(ReadEntity.schema, "Test");
    assert ResourceOf(ReadInfo) == "readEntities";
    ReadEntitiesPath();
    ReadPlan("GET");
    Parameter.SourceTable("GET");
  }

  /**
   * Overriding the verb of that use case with POST keeps the path
   * `/readEntities/:id` and moves `id` to `body`.
   */
  lemma VerbOverrideExample()
    ensures Populated("readUsecase", ReadInfo.(rest := NoRest.(verb := "POST")), None)
         == Success(RestMetadata("POST", "/readEntities/:id", "readEntities", Some([("body", [("id", Prim("Number"))])]), Some(DefaultController)))
  {
    Resource.BuildReadEntityExample(ReadEntity.schema, "Test");
    assert ResourceOf(ReadInfo) == "readEntities";
    ReadEntitiesPath();
    ReadPlan("POST");
    Parameter.SourceTable("POST");
  }

  /** A use case with neither an entity nor a group is an error naming it. */
  lemma NoResourceExample()
    ensures Populated("ReadUsecase", ReadInfo.(entity := None, group := ""), None) == Failure(NoResourceError("ReadUsecase"))
  {
    assert ToResourceName(None, "") == "";
  }

  // ---------------------------------------------------------------------------
  // The registry walk
  // ---------------------------------------------------------------------------

  /** The use cases of the herbarium, `[name, info]` in registration order. */
  class UseCaseRegistry {
    var all: seq<(string, UseCaseInfo)>

    constructor (all: seq<(string, UseCaseInfo)>)
      ensures this.all == all
    {
      this.all := all;
    }
  }

  /** The metadata of one use case, or the error that stops the walk. */
  type Step = (string, UseCaseInfo) -> Result<RestMetadata, string>

  /** `Populated` for the controller given to the populator. */
  function PopulatedBy(controller: Option<Handler>): Step {
    (name, info) => Populated(name, info, controller)
  }

  /**
   * The registry after `populateMetadata` has handled the use cases from
   * `i` on: each one in turn gets its metadata written, and the first
   * failure stops the walk with its error, leaving it and the use cases
   * after it as they were.
   */
  function PopulateFrom(all: seq<(string, UseCaseInfo)>, i: nat, populate: Step): (r: (seq<(string, UseCaseInfo)>, Option<string>))
    requires i <= |all|
    decreases |all| - i
  {
    if i == |all| then (all, None)
    else
      match populate(all[i].0, all[i].1)
      case Failure(e) => (all, Some(e))
      case Success(m) => PopulateFrom(all[i := (all[i].0, all[i].1.(rest := m))], i + 1, populate)
  }

  /** `populateMetadata` with the default convention. */
  method Populate(registry: UseCaseRegistry, controller: Option<Handler>) returns (err: Option<string>)
    modifies registry
    ensures (registry.all, err) == PopulateFrom(old(registry.all), 0, PopulatedBy(controller))
  {
    var i := 0;
    while i < |registry.all|
      invariant i <= |registry.all|
      invariant PopulateFrom(registry.all, i, PopulatedBy(controller)) == PopulateFrom(old(registry.all), 0, PopulatedBy(controller))
    {
      var (name, info) := registry.all[i];
      var r := Populated(name, info, controller);
      if r.Failure? {
        return Some(r.error);
      }
      registry.all := registry.all[i := (name, info.(rest := r.value))];
      i := i + 1;
    }
    return None;
  }

  /** Every use case from `i` on up to `k` populates, with the metadata `out` holds for it. */
  ghost predicate WrittenUpTo(all: seq<(string, UseCaseInfo)>, out: seq<(string, UseCaseInfo)>, i: nat, k: nat, populate: Step)
    requires i <= k <= |all| == |out|
  {
    forall j :: i <= j < k ==> populate(all[j].0, all[j].1) == Success(out[j].1.rest)
  }

  /**
   * The walk changes only the REST metadata of a use case, and leaves the
   * use cases before `i` untouched.
   */
  lemma {:induction false} PopulateFromShape(all: seq<(string, UseCaseInfo)>, i: nat, populate: Step)
    requires i <= |all|
    ensures var out := PopulateFrom(all, i, populate).0;
      && |out| == |all|
      && (forall j :: 0 <= j < |all| ==> out[j] == (all[j].0, all[j].1.(rest := out[j].1.rest)))
      && (forall j :: 0 <= j < i ==> out[j] == all[j])
    decreases |all| - i
  {
    if i < |all| && populate(all[i].0, all[i].1).Success? {
      var m := populate(all[i].0, all[i].1).value;
      var next := all[i := (all[i].0, all[i].1.(rest := m))];
      PopulateFromShape(next, i + 1, populate);
    }
  }

  /**
   * Without an error every use case from `i` on holds its populated
   * metadata; an error is that of the first use case that fails, which is
   * left untouched with the use cases after it.
   */
  lemma {:induction false} PopulateFromOutcome(all: seq<(string, UseCaseInfo)>, i: nat, populate: Step)
    requires i <= |all|
    ensures var (out, e) := PopulateFrom(all, i, populate);
      && |out| == |all|
      && (e.None? ==> WrittenUpTo(all, out, i, |all|, populate))
      && (e.Some? ==> exists k :: i <= k < |all| && WrittenUpTo(all, out, i, k, populate)
                                 && populate(all[k].0, all[k].1) == Failure(e.value)
                                 && out[k..] == all[k..])
    decreases |all| - i
  {
    PopulateFromShape(all, i, populate);
    if i < |all| {
      match populate(all[i].0, all[i].1)
      case Failure(err) =>
        assert WrittenUpTo(all, all, i, i, populate);
      case Success(m) =>
        var next := all[i := (all[i].0, all[i].1.(rest := m))];
        PopulateFromOutcome(next, i + 1, populate);
        PopulateFromShape(next, i + 1, populate);
        var (out, e) := PopulateFrom(next, i + 1, populate);
        if e.Some? {
          var k :| i + 1 <= k < |next| && WrittenUpTo(next, out, i + 1, k, populate)
                   && populate(next[k].0, next[k].1) == Failure(e.value) && out[k..] == next[k..];
          WrittenStep(all, next, out, i, k, populate);
          assert out[k..] == all[k..] by {
            assert forall j :: k <= j < |all| ==> out[k..][j - k] == next[j] == all[j];
          }
        } else {
          WrittenStep(all, next, out, i, |all|, populate);
        }
      }
  }

  /** One step of the walk: the use case at `i` written, the rest as the walk from `i + 1` on writes them. */
  lemma WrittenStep(all: seq<(string, UseCaseInfo)>, next: seq<(string, UseCaseInfo)>, out: seq<(string, UseCaseInfo)>, i: nat, k: nat,
                    populate: Step)
    requires i < k <= |all| == |next| == |out|
    requires forall j :: 0 <= j < |all| && j != i ==> next[j] == all[j]
    requires out[i] == next[i] && next[i] == (all[i].0, all[i].1.(rest := out[i].1.rest))
    requires populate(all[i].0, all[i].1) == Success(out[i].1.rest)
    requires WrittenUpTo(next, out, i + 1, k, populate)
    ensures WrittenUpTo(all, out, i, k, populate)
  {
  }

  /** A walk that meets no error has nothing left to do when run again. */
  lemma {:induction false} PopulateFromDone(all: seq<(string, UseCaseInfo)>, i: nat, populate: Step)
    requires i <= |all| && WrittenUpTo(all, all, i, |all|, populate)
    ensures PopulateFrom(all, i, populate) == (all, None)
    decreases |all| - i
  {
    if i < |all| {
      assert all[i := (all[i].0, all[i].1.(rest := all[i].1.rest))] == all;
      PopulateFromDone(all, i + 1, populate);
    }
  }

  /** Populating twice is populating once: a second run writes nothing new and meets no error. */
  lemma PopulateIdempotent(all: seq<(string, UseCaseInfo)>, controller: Option<Handler>)
    requires PopulateFrom(all, 0, PopulatedBy(controller)).1.None?
    ensures var out := PopulateFrom(all, 0, PopulatedBy(controller)).0;
      PopulateFrom(out, 0, PopulatedBy(controller)) == (out, None)
  {
    var populate := PopulatedBy(controller);
    PopulateFromShape(all, 0, populate);
    PopulateFromOutcome(all, 0, populate);
    var out := PopulateFrom(all, 0, populate).0;
    forall j | 0 <= j < |out|
      ensures populate(out[j].0, out[j].1) == Success(out[j].1.rest)
    {
      PopulatedFixed(all[j].0, all[j].1, controller);
    }
    PopulateFromDone(out, 0, populate);
  }
}
