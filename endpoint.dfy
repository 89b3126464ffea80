/**
 * The REST endpoint of a use case: explicit settings win over earlier
 * ones, conventions fill in what is still missing, and the result is
 * validated.
 */
module Endpoints {
  import opened Wrappers
  import opened Js
  import opened Meta
  import HttpMethod
  import Parameter
  import Resource
  import Path

  /** A registered use case, as the endpoint code reads it from the registry. */
  datatype UseCase = UseCase(
    id: string,
    operation: string,                  // the CRUD tag of its metadata; "" when it has none
    entities: seq<EntityDesc>,          // the entity nodes it is linked to
    requestSchema: Entries<TypeDesc>)

  /** The endpoint's `usecase` field; after initialisation only the id is left. */
  datatype UseCaseRef = UseCaseRef(
    id: string,
    entity: Option<EntityDesc>,
    operation: Option<string>,
    request: Option<Entries<TypeDesc>>)

  /** The arguments of `use` (`verb` is `method`); a falsy or omitted argument is `Undefined`, `""` or `None`. */
  datatype UseOptions = UseOptions(
    verb: Value,
    resource: string,
    parameters: Option<Plan>,
    parametersHandler: Option<Handler>,
    path: string,
    controller: Option<Handler>,
    authorizationHandler: Option<Handler>)

  /** The fields of an endpoint object (`verb` is its `method` field). */
  datatype EndpointState = EndpointState(
    id: string,
    version: string,
    verb: Value,
    resource: string,
    parameters: Option<Plan>,
    parametersHandler: Option<Handler>,
    path: string,
    controller: Option<Handler>,
    authorizationHandler: Option<Handler>,
    usecase: UseCaseRef)

  /** `${usecaseID}Endpoint`, suffixed by `-${version}` when a version is set. */
  function EndpointId(usecaseID: string, version: string): (id: string)
    ensures version == "" ==> id == usecaseID + "Endpoint"
    ensures version != "" ==> id == usecaseID + "Endpoint-" + version
  {
    usecaseID + "Endpoint" + (if version != "" then "-" + version else "")
  }

  /** The error `Endpoint.for` raises for a use case linked to several entities. */
  function TooManyEntities(usecaseID: string): string {
    "Invalid Use Case. The use case " + usecaseID + " is linked to more than one entity."
  }

  /** The endpoint `Endpoint.for` creates for a use case linked to at most one entity. */
  function Initial(uc: UseCase, version: string, controller: Option<Handler>, authorizationHandler: Option<Handler>): EndpointState {
    EndpointState(
      EndpointId(uc.id, version), version, Undefined, "", None, None, "", controller, authorizationHandler,
      UseCaseRef(uc.id,
                 if uc.entities == [] then None else Some(uc.entities[0]),
                 Some(if uc.operation != "" then uc.operation else "other"),
                 Some(FromEntries(uc.requestSchema))))
  }

  /** The first lines of `use`: each truthy argument replaces the field, an omitted one keeps it. */
  function Merge(s: EndpointState, o: UseOptions): EndpointState {
    s.(verb := if Truthy(o.verb) then o.verb else s.verb,
       resource := if o.resource != "" then o.resource else s.resource,
       parameters := if o.parameters.Some? then o.parameters else s.parameters,
       parametersHandler := if o.parametersHandler.Some? then o.parametersHandler else s.parametersHandler,
       path := if o.path != "" then o.path else s.path,
       controller := if o.controller.Some? then o.controller else s.controller,
       authorizationHandler := if o.authorizationHandler.Some? then o.authorizationHandler else s.authorizationHandler)
  }

  function HandlerOr(x: Option<Handler>, d: Handler): Option<Handler> {
    if x.Some? then x else Some(d)
  }

  /** The method `#initialize` settles on, or the parse error. */
  function ResolveMethod(s: EndpointState): (r: Result<string, string>)
    ensures r.Success? ==> HttpMethod.IsHttpMethod(r.value)
    ensures r.Failure? <==> s.verb.Str? && !HttpMethod.IsHttpMethod(ToUpper(s.verb.s))
  {
    HttpMethod.ParseYieldsToken(s.verb);
    HttpMethod.FromOperationIsMethod(s.usecase.operation.GetOr("undefined"));
    var parsed :- HttpMethod.Parse(s.verb);
    if parsed.Some? then Success(parsed.value)
    else Success(HttpMethod.FromOperation(s.usecase.operation.GetOr("undefined")))
  }

  /** The message of `Object.entries(undefined)`. */
  const EntriesOfUndefined := "TypeError: Cannot convert undefined or null to object"

  /**
   * `#initialize`: the method, then parameters, parameter handler,
   * resource, path, controller and authorization handler, each kept when
   * set and derived otherwise; the use case is then reduced to its id.  A
   * step that throws leaves the fields assigned before it.
   */
  function InitializeState(s: EndpointState): (EndpointState, Option<string>) {
    match ResolveMethod(s)
    case Failure(e) => (s, Some(e))
    case Success(m) =>
      var s1 := s.(verb := Str(m));
      if s1.parameters.None? && s1.usecase.request.None? then (s1, Some(EntriesOfUndefined))
      else (Derive(s1, m), None)
  }

  lemma InitializeStateSettles(s: EndpointState, m: string)
    requires ResolveMethod(s) == Success(m)
    ensures var s1 := s.(verb := Str(m));
      InitializeState(s) == if s1.parameters.None? && s1.usecase.request.None? then (s1, Some(EntriesOfUndefined)) else (Derive(s1, m), None)
  {
  }

  /** The parameters `#initialize` settles on. */
  function DeriveParameters(s: EndpointState, m: string): Option<Plan>
    requires s.parameters.Some? || s.usecase.request.Some?
  {
    if s.parameters.Some? then s.parameters
    else Some(Parameter.Build(m, s.usecase.request.value, s.usecase.entity))
  }

  /** The resource `#initialize` settles on. */
  function DeriveResource(s: EndpointState): string {
    if s.resource != "" then s.resource else Resource.Build(s.usecase.entity, s.usecase.id)
  }

  /** The path `#initialize` settles on, from the settled method, resource and parameters. */
  function DerivePath(s: EndpointState, m: string, resource: string, parameters: Option<Plan>): string {
    if s.path != "" then s.path else Path.Build(s.version, m, s.usecase.operation.GetOr(""), resource, parameters)
  }

  lemma DeriveIs(s: EndpointState, m: string)
    requires s.parameters.Some? || s.usecase.request.Some?
    ensures Derive(s, m) == EndpointState(
      s.id, s.version, s.verb, DeriveResource(s), DeriveParameters(s, m),
      HandlerOr(s.parametersHandler, ParametersHandler),
      DerivePath(s, m, DeriveResource(s), DeriveParameters(s, m)),
      HandlerOr(s.controller, DefaultController),
      HandlerOr(s.authorizationHandler, DefaultAuthorization),
      UseCaseRef(s.usecase.id, None, None, None))
  {
  }

  /** The fields after the method step of `#initialize` has settled on `m`. */
  function Derive(s: EndpointState, m: string): (r: EndpointState)
    requires s.parameters.Some? || s.usecase.request.Some?
    ensures r.parameters.Some? && r.parametersHandler.Some? && r.controller.Some? && r.authorizationHandler.Some?
    ensures r.id == s.id && r.version == s.version && r.verb == s.verb && r.usecase == UseCaseRef(s.usecase.id, None, None, None)
    ensures s.parameters.Some? ==> r.parameters == s.parameters
    ensures s.parametersHandler.Some? ==> r.parametersHandler == s.parametersHandler
    ensures s.controller.Some? ==> r.controller == s.controller
    ensures s.authorizationHandler.Some? ==> r.authorizationHandler == s.authorizationHandler
    ensures s.resource != "" ==> r.resource == s.resource
    ensures s.path != "" ==> r.path == s.path
  {
    var parameters := DeriveParameters(s, m);
    var resource := DeriveResource(s);
    s.(parameters := parameters,
       parametersHandler := HandlerOr(s.parametersHandler, ParametersHandler),
       resource := resource,
       path := DerivePath(s, m, resource, parameters),
       controller := HandlerOr(s.controller, DefaultController),
       authorizationHandler := HandlerOr(s.authorizationHandler, DefaultAuthorization),
       usecase := UseCaseRef(s.usecase.id, None, None, None))
  }

  function NotInferred(what: string, id: string): string {
    "It was not possible to use or infer the " + what + " for the endpoint " + id
  }

  /** `#validate`: the first missing field, in the order method, resource, path, controller, authorizationHandler, parameters, parametersHandler. */
  function ValidateState(s: EndpointState): (err: Option<string>)
    ensures err.None? <==> (Truthy(s.verb) && s.resource != "" && s.path != "" && s.controller.Some?
                            && s.authorizationHandler.Some? && s.parameters.Some? && s.parametersHandler.Some?)
  {
    if !Truthy(s.verb) then Some(NotInferred("method", s.id))
    else if s.resource == "" then Some(NotInferred("resource name", s.id))
    else if s.path == "" then Some(NotInferred("path", s.id))
    else if s.controller.None? then Some(NotInferred("controller", s.id))
    else if s.authorizationHandler.None? then Some(NotInferred("authorizationHandler", s.id))
    else if s.parameters.None? then Some(NotInferred("parameters", s.id))
    else if s.parametersHandler.None? then Some(NotInferred("parametersHandler", s.id))
    else None
  }

  /** `use`: merge, initialise, validate. */
  function ApplyUse(s: EndpointState, o: UseOptions): (EndpointState, Option<string>) {
    var (s1, err) := InitializeState(Merge(s, o));
    if err.Some? then (s1, err) else (s1, ValidateState(s1))
  }

  lemma ApplyUseSteps(s: EndpointState, o: UseOptions, s1: EndpointState, e: Option<string>)
    requires InitializeState(Merge(s, o)) == (s1, e)
    ensures ApplyUse(s, o) == if e.Some? then (s1, e) else (s1, ValidateState(s1))
  {
  }

  /**
   * The method: an explicit string is upper-cased when it names a method
   * and rejected otherwise; without one, the operation decides.
   */
  lemma MethodResolution(s: EndpointState)
    ensures !s.verb.Str? ==> ResolveMethod(s) == Success(HttpMethod.FromOperation(s.usecase.operation.GetOr("undefined")))
    ensures s.verb.Str? && HttpMethod.IsHttpMethod(ToUpper(s.verb.s)) ==> ResolveMethod(s) == Success(ToUpper(s.verb.s))
    ensures s.verb.Str? && !HttpMethod.IsHttpMethod(ToUpper(s.verb.s)) ==> ResolveMethod(s) == Failure("Invalid HTTP method: " + s.verb.s)
  {
    HttpMethod.ParseYieldsToken(s.verb);
  }

  /** A use case without an operation is tagged 'other', so without an explicit method it is served by POST. */
  lemma DefaultMethodIsPost(uc: UseCase, version: string, controller: Option<Handler>, authorizationHandler: Option<Handler>)
    requires uc.operation == ""
    ensures ResolveMethod(Initial(uc, version, controller, authorizationHandler)) == Success("POST")
  {
    HttpMethod.FromOperationTable();
  }

  /**
   * What a successful `#initialize` leaves: a method token, parameters and
   * all three handlers set (the defaults where none was given), the set
   * fields kept, a resource and path that are empty only when nothing
   * names the endpoint, and the use case reduced to its id.
   */
  lemma InitializeFills(s: EndpointState)
    requires InitializeState(s).1.None?
    ensures var r := InitializeState(s).0;
      && r.id == s.id && r.version == s.version
      && r.verb.Str? && HttpMethod.IsHttpMethod(r.verb.s) && Truthy(r.verb)
      && r.parameters.Some? && (s.parameters.Some? ==> r.parameters == s.parameters)
      && r.parametersHandler == (if s.parametersHandler.Some? then s.parametersHandler else Some(ParametersHandler))
      && r.controller == (if s.controller.Some? then s.controller else Some(DefaultController))
      && r.authorizationHandler == (if s.authorizationHandler.Some? then s.authorizationHandler else Some(DefaultAuthorization))
      && (s.resource != "" ==> r.resource == s.resource)
      && (r.resource == "" <==> s.resource == "" && (s.usecase.entity.None? || s.usecase.entity.value.name == "") && s.usecase.id == "")
      && (s.path != "" ==> r.path == s.path)
      && (r.path == "" <==> s.path == "" && r.resource == "")
      && r.usecase == UseCaseRef(s.usecase.id, None, None, None)
  {
    MethodResolution(s);
    var m := ResolveMethod(s).value;
    var s1 := s.(verb := Str(m));
    InitializeStateSettles(s, m);
    DeriveIs(s1, m);
    HttpMethod.MethodsNonEmpty(m);
  }

  /** After a successful `#initialize`, `#validate` can only complain about the resource name. */
  lemma ValidateAfterInitialize(s: EndpointState)
    requires InitializeState(s).1.None?
    ensures var r := InitializeState(s).0;
      ValidateState(r) == if r.resource == "" then Some(NotInferred("resource name", s.id)) else None
  {
    var r := InitializeState(s).0;
    InitializeFills(s);
    if r.resource != "" {
      ValidWhenSet(r);
    }
  }

  /**
   * In `use`, a given argument replaces the field and an omitted one keeps
   * it, whether or not the rest of `use` then succeeds.
   */
  lemma UseKeepsOverrides(s: EndpointState, o: UseOptions)
    ensures var r := ApplyUse(s, o).0;
      && r.id == s.id && r.version == s.version
      && (o.resource != "" ==> r.resource == o.resource)
      && (o.resource == "" && s.resource != "" ==> r.resource == s.resource)
      && (o.path != "" ==> r.path == o.path)
      && (o.path == "" && s.path != "" ==> r.path == s.path)
      && (o.parameters.Some? ==> r.parameters == o.parameters)
      && (o.parameters.None? && s.parameters.Some? ==> r.parameters == s.parameters)
      && (o.parametersHandler.Some? ==> r.parametersHandler == o.parametersHandler)
      && (o.parametersHandler.None? && s.parametersHandler.Some? ==> r.parametersHandler == s.parametersHandler)
      && (o.controller.Some? ==> r.controller == o.controller)
      && (o.controller.None? && s.controller.Some? ==> r.controller == s.controller)
      && (o.authorizationHandler.Some? ==> r.authorizationHandler == o.authorizationHandler)
      && (o.authorizationHandler.None? && s.authorizationHandler.Some? ==> r.authorizationHandler == s.authorizationHandler)
  {
    var merged := Merge(s, o);
    var (s1, e) := InitializeState(merged);
    ApplyUseSteps(s, o, s1, e);
    if e.None? {
      InitializeFills(merged);
    } else if ResolveMethod(merged).Success? {
      InitializeStateSettles(merged, ResolveMethod(merged).value);
    }
  }

  /**
   * `use` succeeds exactly when the method resolves, parameters are given
   * or can be planned from the request, and some name yields a resource;
   * then every field is set and the use case is reduced to its id.
   */
  lemma UseOutcome(s: EndpointState, o: UseOptions)
    ensures var merged := Merge(s, o);
      var (r, e) := ApplyUse(s, o);
      && (e.None? <==> ResolveMethod(merged).Success?
                       && (merged.parameters.Some? || merged.usecase.request.Some?)
                       && (merged.resource != "" || (merged.usecase.entity.Some? && merged.usecase.entity.value.name != "") || merged.usecase.id != ""))
      && (e.None? ==> Truthy(r.verb) && r.resource != "" && r.path != "" && r.controller.Some?
                      && r.authorizationHandler.Some? && r.parameters.Some? && r.parametersHandler.Some?
                      && r.usecase == UseCaseRef(s.usecase.id, None, None, None))
  {
    var merged := Merge(s, o);
    var (s1, e) := InitializeState(merged);
    ApplyUseSteps(s, o, s1, e);
    if e.None? {
      InitializeFills(merged);
      ValidateAfterInitialize(merged);
    } else if ResolveMethod(merged).Success? {
      InitializeStateSettles(merged, ResolveMethod(merged).value);
    }
  }

  /** The entity 'read Entity': an ID, a plain field and a function. */
  const ReadEntity := EntityDesc("read Entity", [("id", Field(Prim("Number"), true)), ("name", Field(Prim("String"), false)), ("aFunction", Method)])

  /** A read use case of `ReadEntity` whose request is its id. */
  const ReadUseCase := UseCase("readUsecase", "read", [ReadEntity], [("id", Prim("Number"))])

  /** The request `for` copies out of `ReadUseCase`. */
  lemma ReadRequest()
    ensures FromEntries(ReadUseCase.requestSchema) == [("id", Prim("Number"))]
  {
    var request := ReadUseCase.requestSchema;
    assert PutAll([], request) == PutAll(Put([], "id", Prim("Number")), request[1..]);
  }

  lemma ValidWhenSet(r: EndpointState)
    requires r.verb.Str? && r.verb.s != "" && r.resource != "" && r.path != ""
    requires r.parameters.Some? && r.parametersHandler.Some? && r.controller.Some? && r.authorizationHandler.Some?
    ensures ValidateState(r) == None
  {
  }

  lemma LiteralPaths()
    ensures Path.Base("", "readEntities") == "/readEntities"
    ensures Path.Base("", "myResource") + "/:" + "id" == "/myResource/:id"
  {
  }

  /**
   * Overriding the method of a read with POST moves the id to the body,
   * so the derived path has no path parameter: '/readEntities'.
   */
  lemma MethodOverrideExample()
    ensures var (r, e) := ApplyUse(Initial(ReadUseCase, "", None, None), UseOptions(Str("POST"), "", None, None, "", None, None));
      e.None? && r.verb == Str("POST") && r.resource == "readEntities" && r.path == "/readEntities"
      && r.parameters == Some([("body", [("id", Prim("Number"))])])
  {
    var s := Initial(ReadUseCase, "", None, None);
    var o := UseOptions(Str("POST"), "", None, None, "", None, None);
    var merged := Merge(s, o);
    assert merged.verb == Str("POST");
    HttpMethod.TokensAreUpperCase("POST");
    MethodResolution(merged);
    InitializeStateSettles(merged, "POST");
    var s1 := merged.(verb := Str("POST"));
    ReadRequest();
    assert "id" in Parameter.EntityIdNames(Some(ReadEntity));
    Parameter.SingleIdFieldPlan("POST", "id", Prim("Number"), Some(ReadEntity));
    Parameter.SourceTable("POST");
    var plan: Plan := [("body", [("id", Prim("Number"))])];
    assert DeriveParameters(s1, "POST") == Some(plan);
    Resource.BuildReadEntityExample(ReadEntity.schema, "readUsecase");
    assert DeriveResource(s1) == "readEntities";
    Path.NoPathParameters("", "POST", "read", "readEntities", Some(plan));
    assert s1.path == "" && s1.version == "" && s1.usecase.operation == Some("read");
    LiteralPaths();
    assert DerivePath(s1, "POST", "readEntities", Some(plan)) == "/readEntities";
    var r := Derive(s1, "POST");
    DeriveIs(s1, "POST");
    assert r.verb == Str("POST") && r.resource == "readEntities" && r.path == "/readEntities";
    assert r.parameters.Some? && r.parametersHandler.Some? && r.controller.Some? && r.authorizationHandler.Some?;
    ValidWhenSet(r);
    assert InitializeState(merged) == (r, None);
    ApplyUseSteps(s, o, r, None);
  }

  /**
   * Overriding the resource of a read keeps the GET method and its path
   * parameter: '/myResource/:id'.
   */
  lemma ResourceOverrideExample()
    ensures var (r, e) := ApplyUse(Initial(ReadUseCase, "", None, None), UseOptions(Undefined, "myResource", None, None, "", None, None));
      e.None? && r.verb == Str("GET") && r.resource == "myResource" && r.path == "/myResource/:id"
  {
    var s := Initial(ReadUseCase, "", None, None);
    var o := UseOptions(Undefined, "myResource", None, None, "", None, None);
    var merged := Merge(s, o);
    HttpMethod.FromOperationTable();
    MethodResolution(merged);
    InitializeStateSettles(merged, "GET");
    var s1 := merged.(verb := Str("GET"));
    ReadRequest();
    assert "id" in Parameter.EntityIdNames(Some(ReadEntity));
    Parameter.SingleIdFieldPlan("GET", "id", Prim("Number"), Some(ReadEntity));
    Parameter.SourceTable("GET");
    var plan: Plan := [("params", [("id", Prim("Number"))])];
    assert DeriveParameters(s1, "GET") == Some(plan);
    Path.SingleParameter("", "GET", "read", "myResource", "id", Prim("Number"));
    assert s1.path == "" && s1.version == "" && s1.usecase.operation == Some("read");
    LiteralPaths();
    assert DerivePath(s1, "GET", "myResource", Some(plan)) == "/myResource/:id";
    var r := Derive(s1, "GET");
    DeriveIs(s1, "GET");
    assert r.verb == Str("GET") && r.resource == "myResource" && r.path == "/myResource/:id";
    assert r.parameters.Some? && r.parametersHandler.Some? && r.controller.Some? && r.authorizationHandler.Some?;
    ValidWhenSet(r);
    assert InitializeState(merged) == (r, None);
    ApplyUseSteps(s, o, r, None);
  }

  /** An endpoint object. */
  class Endpoint {
    var id: string
    const version: string
    var verb: Value
    var resource: string
    var parameters: Option<Plan>
    var parametersHandler: Option<Handler>
    var path: string
    var controller: Option<Handler>
    var authorizationHandler: Option<Handler>
    var usecase: UseCaseRef

    function State(): EndpointState
      reads this
    {
      EndpointState(id, version, verb, resource, parameters, parametersHandler, path, controller, authorizationHandler, usecase)
    }

    constructor (s: EndpointState)
      ensures State() == s
    {
      id := s.id;
      version := s.version;
      verb := s.verb;
      resource := s.resource;
      parameters := s.parameters;
      parametersHandler := s.parametersHandler;
      path := s.path;
      controller := s.controller;
      authorizationHandler := s.authorizationHandler;
      usecase := s.usecase;
    }

    /** `Endpoint.for`: a use case linked to more than one entity is rejected. */
    static method For(uc: UseCase, version: string, controller: Option<Handler>, authorizationHandler: Option<Handler>)
      returns (r: Result<Endpoint, string>)
      ensures r.Failure? <==> |uc.entities| > 1
      ensures r.Failure? ==> r.error == TooManyEntities(uc.id)
      ensures r.Success? ==> fresh(r.value) && r.value.State() == Initial(uc, version, controller, authorizationHandler)
    {
      var operation := if uc.operation != "" then uc.operation else "other";
      if |uc.entities| > 1 {
        return Failure(TooManyEntities(uc.id));
      }
      var entity := if uc.entities == [] then None else Some(uc.entities[0]);
      var request := FromEntries(uc.requestSchema);
      var endpoint := new Endpoint(EndpointState(
        EndpointId(uc.id, version), version, Undefined, "", None, None, "", controller, authorizationHandler,
        UseCaseRef(uc.id, entity, Some(operation), Some(request))));
      return Success(endpoint);
    }

    /** Sets the id the registry node is created under (`endpoint.id = endpointID || endpoint.id`). */
    method SetId(newId: string)
      modifies this
      ensures State() == old(State()).(id := newId)
    {
      id := newId;
    }

    /** `use`; `err` is the error it throws, if any. */
    method Use(o: UseOptions) returns (err: Option<string>)
      modifies this
      ensures (State(), err) == ApplyUse(old(State()), o)
    {
      MergeOptions(o);
      ghost var merged := State();
      err := Initialize();
      ghost var initialized := State();
      assert (initialized, err) == InitializeState(merged);
      ApplyUseSteps(old(State()), o, initialized, err);
      if err.None? {
        err := Validate();
      }
    }

    /** The option-by-option override at the head of `#use`. */
    method MergeOptions(o: UseOptions)
      modifies this
      ensures State() == Merge(old(State()), o)
    {
      var m := Merge(State(), o);
      verb, resource, parameters, parametersHandler, path, controller, authorizationHandler :=
        m.verb, m.resource, m.parameters, m.parametersHandler, m.path, m.controller, m.authorizationHandler;
    }

    /** `#initialize` */
    method Initialize() returns (err: Option<string>)
      modifies this
      ensures (State(), err) == InitializeState(old(State()))
    {
      ghost var s := State();
      var parsed := HttpMethod.Parse(verb);
      if parsed.Failure? {
        return Some(parsed.error);
      }
      var m := if parsed.value.Some? then parsed.value.value
               else HttpMethod.FromOperation(usecase.operation.GetOr("undefined"));
      assert ResolveMethod(s) == Success(m);
      InitializeStateSettles(s, m);
      verb := Str(m);
      var s1 := State();
      assert s1 == s.(verb := Str(m));
      if parameters.None? && usecase.request.None? {
        return Some(EntriesOfUndefined);
      }
      parameters := DeriveParameters(s1, m);
      parametersHandler := HandlerOr(parametersHandler, ParametersHandler);
      resource := DeriveResource(s1);
      path := DerivePath(s1, m, resource, parameters);
      controller := HandlerOr(controller, DefaultController);
      authorizationHandler := HandlerOr(authorizationHandler, DefaultAuthorization);
      usecase := UseCaseRef(usecase.id, None, None, None);
      DeriveIs(s1, m);
      assert State() == Derive(s1, m);
      return None;
    }

    /** `#validate` */
    method Validate() returns (err: Option<string>)
      ensures err == ValidateState(State())
    {
      if !Truthy(verb) {
        err := Some(NotInferred("method", id));
      } else if resource == "" {
        err := Some(NotInferred("resource name", id));
      } else if path == "" {
        err := Some(NotInferred("path", id));
      } else if controller.None? {
        err := Some(NotInferred("controller", id));
      } else if authorizationHandler.None? {
        err := Some(NotInferred("authorizationHandler", id));
      } else if parameters.None? {
        err := Some(NotInferred("parameters", id));
      } else if parametersHandler.None? {
        err := Some(NotInferred("parametersHandler", id));
      } else {
        err := None;
      }
    }

    /** `toJSON`; `Parameter.toJSON` of missing parameters reads `.name` of undefined. */
    function ToJson(): (r: Result<EndpointJson, string>)
      reads this
      ensures r.Success? <==> parameters.Some?
      ensures r.Success? ==> r.value.parameters == Parameter.ToJson(parameters.value)
    {
      if parameters.None? then Failure(NameOfUndefined)
      else Success(EndpointJson(version, verb, path, Parameter.ToJson(parameters.value), resource))
    }
  }

  const NameOfUndefined := "TypeError: Cannot read properties of undefined (reading 'name')"

  /** The object `toJSON` returns. */
  datatype EndpointJson = EndpointJson(version: string, verb: Value, path: string, parameters: Parameter.Json, resource: string)
}
