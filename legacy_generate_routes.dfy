/**
 * The deprecated `generateRoutes`: for each route entry, the name of its
 * entity's ID field, then the routes of its CRUD slots registered on the
 * router in the order getAll, getById, post, put, delete. A slot names its
 * use case factory (`usecase`), its controller and, for the id routes, an
 * optional path parameter name.
 */
module LegacyGenerateRoutes {
  import opened Wrappers
  import opened Js
  import opened Meta
  import opened Routing
  import GC = GenerateControllers
  import opened ControllerEntries

  /** A slot of a route entry; `""` stands for a missing or empty `id`. */
  datatype RouteOp = RouteOp(usecase: Option<string>, controller: Option<Handler>, id: string)

  /** One element of `routes`; `""` stands for a missing or empty `idEntity`. */
  datatype Route = Route(
    name: Option<string>,
    entity: Option<EntityDesc>,
    idEntity: string,
    getAll: Option<RouteOp>,
    getById: Option<RouteOp>,
    post: Option<RouteOp>,
    put: Option<RouteOp>,
    delete: Option<RouteOp>)

  function OpOf(route: Route, k: SlotKind): Option<RouteOp> {
    match k
    case GetAll => route.getAll
    case GetById => route.getById
    case Post => route.post
    case Put => route.put
    case Delete => route.delete
  }

  /** `a || b` on strings, `""` being the only falsy one. */
  function Or(a: string, b: string): (r: string)
    ensures a != "" ==> r == a
    ensures a == "" ==> r == b
  {
    if a != "" then a else b
  }

  /** The first non-empty string of a list, or `""`. */
  function FirstNonEmpty(xs: seq<string>): (r: string)
    ensures r == "" <==> forall i :: 0 <= i < |xs| ==> xs[i] == ""
    ensures r != "" ==> exists i :: 0 <= i < |xs| && xs[i] == r && forall j :: 0 <= j < i ==> xs[j] == ""
  {
    if xs == [] then ""
    else if xs[0] != "" then xs[0]
    else
      var r := FirstNonEmpty(xs[1..]);
      assert forall i :: 1 <= i < |xs| ==> xs[i] == xs[1..][i - 1];
      r
  }

  /**
   * `idFieldName`: the name of the first schema entry of the route's entity
   * flagged `isId`, or `""` when there is no entity or no such entry; the
   * TypeError of reading `options.isId` off a method reached first.
   */
  function IdFieldName(route: Route): (r: Result<string, string>)
    ensures route.entity.None? ==> r == Success("")
    ensures route.entity.Some? ==> r.Failure? == FirstIdField(route.entity.value.schema).Failure?
    ensures r.Failure? ==> r.error == IsIdOfUndefined
    ensures route.entity.Some? && r.Success? && r.value != "" ==> FirstIdField(route.entity.value.schema) == Success(Some(r.value))
  {
    if route.entity.None? then Success("")
    else
      match FirstIdField(route.entity.value.schema)
      case Failure(e) => Failure(e)
      case Success(first) => Success(first.GetOr(""))
  }

  /** The path parameter of an id slot: `id || idFieldName || idEntity || 'id'` for getById, `id || idFieldName || 'id'` for put and delete. */
  function ParamOf(route: Route, k: SlotKind, op: RouteOp, idFieldName: string): (r: string)
    ensures r != ""
    ensures op.id != "" ==> r == op.id
    ensures op.id == "" && idFieldName != "" ==> r == idFieldName
    ensures k != GetById && op.id == "" && idFieldName == "" ==> r == "id"
  {
    if k == GetById then Or(op.id, Or(idFieldName, Or(route.idEntity, "id")))
    else Or(op.id, Or(idFieldName, "id"))
  }

  /** The TypeError of calling the missing use case factory of a slot. */
  function UsecaseNotAFunction(k: SlotKind): string {
    "TypeError: route." + KeyOf(k) + ".usecase is not a function"
  }

  /** The route a present slot registers; its handler calls the slot's own controller. */
  function SlotRegistration(route: Route, k: SlotKind, op: RouteOp, idFieldName: string): Registration {
    RegistrationOf(route.name, k, ParamOf(route, k, op, idFieldName), op.usecase, op.controller)
  }

  /** The route of a slot, if the entry has it; the log line describes the use case, so a slot without one throws. */
  function SlotRoute(route: Route, k: SlotKind, idFieldName: string): Outcome {
    match OpOf(route, k)
    case None => Outcome([], None)
    case Some(op) =>
      if op.usecase.None? then Outcome([], Some(UsecaseNotAFunction(k)))
      else Outcome([SlotRegistration(route, k, op, idFieldName)], None)
  }

  function SlotStep(route: Route, idFieldName: string): SlotKind -> Outcome {
    k => SlotRoute(route, k, idFieldName)
  }

  /** The slot blocks of one entry, in registration order, once its ID field name is known. */
  function SlotRoutes(route: Route, idFieldName: string): Outcome {
    Sequence(SlotStep(route, idFieldName), Kinds)
  }

  /** The routes of one entry: the ID field lookup, then its slots in registration order. */
  function RouteRoutes(route: Route): Outcome {
    match IdFieldName(route)
    case Failure(e) => Outcome([], Some(e))
    case Success(n) => SlotRoutes(route, n)
  }

  function RouteStep(): Route -> Outcome {
    route => RouteRoutes(route)
  }

  /** `generateRoutes(routes, app, endpointInfo)`; logging does not change what is registered. */
  function Routes(routes: seq<Route>): Outcome {
    Sequence(RouteStep(), routes)
  }

  /** The route a slot is meant to register, if the entry has the slot. */
  function Intended(route: Route, idFieldName: string, k: SlotKind): Option<Registration> {
    match OpOf(route, k)
    case None => None
    case Some(op) => Some(SlotRegistration(route, k, op, idFieldName))
  }

  /**
   * The path parameter of an id slot is never empty: the first non-empty
   * one of the slot's `id`, the entity's ID field name, the route's
   * `idEntity` (getById only) and `id`.
   */
  lemma ParamSpec(route: Route, k: SlotKind, op: RouteOp, idFieldName: string)
    ensures ParamOf(route, k, op, idFieldName) != ""
    ensures k == GetById ==> ParamOf(route, k, op, idFieldName) == FirstNonEmpty([op.id, idFieldName, route.idEntity, "id"])
    ensures k != GetById ==> ParamOf(route, k, op, idFieldName) == FirstNonEmpty([op.id, idFieldName, "id"])
  {
    assert FirstNonEmpty(["id"]) == "id" by {
      assert ["id"][1..] == [];
    }
    assert FirstNonEmpty([idFieldName, "id"]) == Or(idFieldName, "id") by {
      assert [idFieldName, "id"][1..] == ["id"];
    }
    if k == GetById {
      var rest := [idFieldName, route.idEntity, "id"];
      assert FirstNonEmpty([route.idEntity, "id"]) == Or(route.idEntity, "id") by {
        assert [route.idEntity, "id"][1..] == ["id"];
      }
      assert FirstNonEmpty(rest) == Or(idFieldName, Or(route.idEntity, "id")) by {
        assert rest[1..] == [route.idEntity, "id"];
      }
      assert [op.id] + rest == [op.id, idFieldName, route.idEntity, "id"];
      assert ([op.id] + rest)[1..] == rest;
    } else {
      assert [op.id, idFieldName, "id"][1..] == [idFieldName, "id"];
    }
  }

  /**
   * An entry throws exactly when its entity's ID field lookup throws or one
   * of its slots has no use case; otherwise it registers one route per slot
   * it has, in the order getAll, getById, post, put, delete.
   */
  lemma RouteRoutesSpec(route: Route)
    ensures RouteRoutes(route).error.None? <==>
      IdFieldName(route).Success? && forall k :: k in Kinds && OpOf(route, k).Some? ==> OpOf(route, k).value.usecase.Some?
    ensures RouteRoutes(route).error.None? ==>
      RouteRoutes(route).regs == Collect((k: SlotKind) => Intended(route, IdFieldName(route).value, k), Kinds)
    ensures IdFieldName(route).Failure? ==> RouteRoutes(route) == Outcome([], Some(IsIdOfUndefined))
  {
    if IdFieldName(route).Success? {
      var f := SlotStep(route, IdFieldName(route).value);
      SequenceNoError(f, Kinds);
      if RouteRoutes(route).error.None? {
        FlattenCollect(f, (k: SlotKind) => Intended(route, IdFieldName(route).value, k), Kinds);
      }
    }
  }

  // ---------------------------------------------------------------------------
  // Registering on the router
  // ---------------------------------------------------------------------------

  /** One `if (route.<slot>) { ... }` block. */
  method RegisterSlot(app: Router, route: Route, k: SlotKind, idFieldName: string) returns (err: Option<string>)
    modifies app
    ensures app.routes == old(app.routes) + SlotRoute(route, k, idFieldName).regs
    ensures err == SlotRoute(route, k, idFieldName).error
  {
    match OpOf(route, k) {
      case None =>
        err := None;
      case Some(op) =>
        if op.usecase.None? {
          err := Some(UsecaseNotAFunction(k));
          return;
        }
        app.Register(SlotRegistration(route, k, op, idFieldName));
        err := None;
    }
  }

  /** What the first `n` slot blocks of an entry register. */
  function RoutePrefix(route: Route, idFieldName: string, n: nat): Outcome
    requires n <= |Kinds|
  {
    Sequence(SlotStep(route, idFieldName), Kinds[..n])
  }

  /** Before the first block, nothing is registered. */
  lemma RouteStarts(route: Route, idFieldName: string)
    ensures RoutePrefix(route, idFieldName, 0) == Outcome([], None)
  {
    assert Kinds[..0] == [];
  }

  /**
   * An entry's walk over its slots ends once a slot throws, or after the
   * last slot: what the first `n` blocks registered on top of `start` is
   * what the entry registers.
   */
  lemma RouteEnds(route: Route, idFieldName: string, n: nat, start: seq<Registration>, routes: seq<Registration>, err: Option<string>)
    requires 0 < n <= |Kinds|
    requires routes == start + RoutePrefix(route, idFieldName, n).regs && err == RoutePrefix(route, idFieldName, n).error
    requires n < |Kinds| ==> err.Some?
    ensures routes == start + SlotRoutes(route, idFieldName).regs && err == SlotRoutes(route, idFieldName).error
  {
    if n < |Kinds| {
      SequenceStops(SlotStep(route, idFieldName), Kinds, n);
    } else {
      assert Kinds[..n] == Kinds;
    }
  }

  /** The block of the `i`-th slot, run after the blocks before it have not thrown. */
  method RegisterNext(app: Router, route: Route, idFieldName: string, i: nat, ghost start: seq<Registration>) returns (err: Option<string>)
    requires i < |Kinds| && RoutePrefix(route, idFieldName, i).error.None?
    requires app.routes == start + RoutePrefix(route, idFieldName, i).regs
    modifies app
    ensures app.routes == start + RoutePrefix(route, idFieldName, i + 1).regs
    ensures err == RoutePrefix(route, idFieldName, i + 1).error
    ensures err.Some? || i + 1 == |Kinds| ==>
      app.routes == start + SlotRoutes(route, idFieldName).regs && err == SlotRoutes(route, idFieldName).error
  {
    err := RegisterSlot(app, route, Kinds[i], idFieldName);
    SequenceAdvance(SlotStep(route, idFieldName), Kinds, i, start);
    if err.Some? || i + 1 == |Kinds| {
      RouteEnds(route, idFieldName, i + 1, start, app.routes, err);
    }
  }

  /** `idFieldName` as the callback computes it. */
  method FindIdFieldName(route: Route) returns (r: Result<string, string>)
    ensures r == IdFieldName(route)
  {
    if route.entity.None? {
      return Success("");
    }
    var first := FirstIdField(route.entity.value.schema);
    if first.Failure? {
      return Failure(first.error);
    }
    r := Success(first.value.GetOr(""));
  }

  /** The five slot blocks of the `forEach` callback in turn. */
  method RegisterSlots(app: Router, route: Route, idFieldName: string) returns (err: Option<string>)
    modifies app
    ensures app.routes == old(app.routes) + SlotRoutes(route, idFieldName).regs
    ensures err == SlotRoutes(route, idFieldName).error
  {
    ghost var start := app.routes;
    RouteStarts(route, idFieldName);
    err := RegisterNext(app, route, idFieldName, 0, start);  // getAll
    if err.Some? {
      return;
    }
    err := RegisterNext(app, route, idFieldName, 1, start);  // getById
    if err.Some? {
      return;
    }
    err := RegisterNext(app, route, idFieldName, 2, start);  // post
    if err.Some? {
      return;
    }
    err := RegisterNext(app, route, idFieldName, 3, start);  // put
    if err.Some? {
      return;
    }
    err := RegisterNext(app, route, idFieldName, 4, start);  // delete
  }

  /** The body of the `forEach` callback: the ID field lookup, then the slot blocks. */
  method RegisterRoute(app: Router, route: Route) returns (err: Option<string>)
    modifies app
    ensures app.routes == old(app.routes) + RouteRoutes(route).regs
    ensures err == RouteRoutes(route).error
  {
    var found := FindIdFieldName(route);
    if found.Failure? {
      return Some(found.error);
    }
    err := RegisterSlots(app, route, found.value);
  }

  /**
   * `generateRoutes(routes, app, endpointInfo)`: the entries in turn; `err`
   * is the TypeError that ends the run, if any, and the routes registered
   * before it stay registered.
   */
  method GenerateRoutes(routes: seq<Route>, app: Router) returns (err: Option<string>)
    modifies app
    ensures app.routes == old(app.routes) + Routes(routes).regs
    ensures err == Routes(routes).error
  {
    ghost var f := RouteStep();
    ghost var start := app.routes;
    err := None;
    var i := 0;
    while i < |routes|
      invariant 0 <= i <= |routes|
      invariant app.routes == start + Sequence(f, routes[..i]).regs
      invariant Sequence(f, routes[..i]).error == None && err == None
    {
      err := RegisterRoute(app, routes[i]);
      SequenceAdvance(f, routes, i, start);
      if err.Some? {
        return;
      }
      i := i + 1;
    }
    assert routes[..|routes|] == routes;
  }

  // ---------------------------------------------------------------------------
  // A route entry of the test suite
  // ---------------------------------------------------------------------------

  /** An entry with only a getById slot, over an entity whose first field is its ID. */
  function GetByIdWithId(name: string, entity: string, idField: string, usecase: string): Route {
    var e := EntityDesc(entity, [(idField, Field(Prim("Number"), true)), ("testField", Field(Prim("String"), false))]);
    Route(Some(name), Some(e), "", None, Some(RouteOp(Some(usecase), Some(DefaultController), "")), None, None, None)
  }

  /** Its path parameter is the entity's ID field. */
  lemma GetByIdWithIdRegisters(name: string, entity: string, idField: string, usecase: string)
    requires idField != ""
    ensures Routes([GetByIdWithId(name, entity, idField, usecase)]) ==
      Outcome([Registration("GET", "/" + name + "/:" + idField, ["query", "params"], Some(usecase), Some(DefaultController))], None)
  {
    var route := GetByIdWithId(name, entity, idField, usecase);
    assert IdFieldName(route) == Success(idField);
    var op := route.getById.value;
    var reg := SlotRegistration(route, GetById, op, idField);
    assert reg == Registration("GET", "/" + name + "/:" + idField, ["query", "params"], Some(usecase), Some(DefaultController));
    RouteRoutesSpec(route);
    CollectKinds((k: SlotKind) => Intended(route, idField, k));
    SequenceOne(RouteStep(), [route]);
  }

  // ---------------------------------------------------------------------------
  // The entries `generateControllers` builds
  // ---------------------------------------------------------------------------

  /**
   * An entry `generateControllers` builds, read as a route entry: its slots
   * hold `usecase`, `controller` and, for getById, `id` under the keys this
   * generation reads.
   */
  function AsRoute(info: Entries<GC.Info>): Route {
    var read := (key: string) =>
      match SlotAt(info, key)
      case None => None
      case Some(slot) => Some(RouteOp(Some(slot.usecase), Some(slot.controller), slot.id.GetOr("")));
    Route(NameAt(info), EntityAt(info), "", read("getAll"), read("getById"), read("post"), read("put"), read("delete"))
  }

  /** The entries `generateControllers` built, as route entries. */
  function AsRoutes(infos: seq<Entries<GC.Info>>): (routes: seq<Route>)
    ensures |routes| == |infos| && forall i :: 0 <= i < |infos| ==> routes[i] == AsRoute(infos[i])
  {
    seq(|infos|, i requires 0 <= i < |infos| => AsRoute(infos[i]))
  }

  /**
   * The route the entry of `pair` registers for a slot: one exactly when
   * the entity has a use case of the slot's operation, under the group's
   * name, calling the first such use case through `controller`; every id
   * slot takes the entity's ID field name, or `id`, as its path parameter.
   */
  function Expected(h: GC.Herbarium, controller: Handler, pair: GC.Pair, k: SlotKind): Option<Registration> {
    match GC.FindFirst(h.usecases, pair.0, CrudOf(k))
    case None => None
    case Some(uc) => Some(RegistrationOf(pair.1, k, PairIdName(h, pair), Some(uc.id), Some(controller)))
  }

  /** The routes the entry of a pair registers, slot by slot. */
  function PairRoutes(h: GC.Herbarium, controller: Handler): GC.Pair -> Outcome {
    pair => Outcome(Collect((k: SlotKind) => Expected(h, controller, pair, k), Kinds), None)
  }

  /**
   * A slot holding the first use case of its operation registers the
   * expected route, whatever ID field name `n` the entry looked up, as long
   * as `n || 'id'` is the name the slot's own `id` carries.
   */
  lemma SlotRegisters(info: Entries<GC.Info>, h: GC.Herbarium, controller: Handler, pair: GC.Pair, n: string, k: SlotKind)
    requires NameAt(info) == pair.1 && Or(n, "id") == PairIdName(h, pair)
    requires var uc := GC.FindFirst(h.usecases, pair.0, CrudOf(k));
      SlotAt(info, KeyOf(k)) == if uc.None? then None else Some(GC.Slot(uc.value.id, controller, uc.value.rest, SlotId(PairIdName(h, pair), k)))
    ensures Intended(AsRoute(info), n, k) == Expected(h, controller, pair, k)
    ensures OpOf(AsRoute(info), k).Some? ==> OpOf(AsRoute(info), k).value.usecase.Some?
  {
    var uc := GC.FindFirst(h.usecases, pair.0, CrudOf(k));
    var route := AsRoute(info);
    if uc.Some? {
      var op := RouteOp(Some(uc.value.id), Some(controller), SlotId(PairIdName(h, pair), k).GetOr(""));
      assert OpOf(route, k) == Some(op);
      var param := ParamOf(route, k, op, n);
      assert HasId(k) ==> param == PairIdName(h, pair);
      assert PathOf(pair.1, k, param) == PathOf(pair.1, k, PairIdName(h, pair));
    }
  }

  /** The entry of a pair looks its entity's ID field up without throwing, and finds the name its slots use. */
  lemma IdFieldOfEntry(h: GC.Herbarium, controller: Handler, pair: GC.Pair)
    requires GC.InfoOf(h, controller, pair).Success?
    ensures var r := IdFieldName(AsRoute(GC.InfoOf(h, controller, pair).value));
      r.Success? && Or(r.value, "id") == PairIdName(h, pair)
  {
    EntityOfEntry(h, controller, pair);
  }

  /**
   * The entry `generateControllers` builds for a pair registers, without
   * throwing, the routes the pair is meant to have.
   */
  lemma RouteOfEntry(h: GC.Herbarium, controller: Handler, pair: GC.Pair)
    requires GC.InfoOf(h, controller, pair).Success?
    ensures RouteRoutes(AsRoute(GC.InfoOf(h, controller, pair).value)) == PairRoutes(h, controller)(pair)
  {
    var info := GC.InfoOf(h, controller, pair).value;
    var route := AsRoute(info);
    IdFieldOfEntry(h, controller, pair);
    var n := IdFieldName(route).value;
    NameOfEntry(h, controller, pair);
    forall k | k in Kinds
      ensures Intended(route, n, k) == Expected(h, controller, pair, k)
      ensures OpOf(route, k).Some? ==> OpOf(route, k).value.usecase.Some?
    {
      SlotOfEntry(h, controller, pair, k);
      SlotRegisters(info, h, controller, pair, n, k);
    }
    RouteRoutesSpec(route);
    CollectSame((k: SlotKind) => Intended(route, n, k), (k: SlotKind) => Expected(h, controller, pair, k), Kinds);
  }

  /**
   * The entries `generateControllers` builds, given to this generation,
   * register without throwing the routes each pair is meant to have, pair
   * by pair.
   */
  lemma GeneratedRoutes(h: GC.Herbarium, controller: Option<Handler>)
    requires GC.Controllers(h, controller).Success?
    ensures var pairs := GC.FindEntitiesAndGroups(h.usecases);
      var handler := controller.GetOr(DefaultController);
      Routes(AsRoutes(GC.Controllers(h, controller).value)) == Outcome(Flatten(PairRoutes(h, handler), pairs), None)
  {
    var pairs := GC.FindEntitiesAndGroups(h.usecases);
    var handler := controller.GetOr(DefaultController);
    var routes := AsRoutes(GC.Controllers(h, controller).value);
    var f := RouteStep();
    GC.ControllersPointwise(h, controller);
    forall i | 0 <= i < |routes|
      ensures f(routes[i]) == PairRoutes(h, handler)(pairs[i])
    {
      RouteOfEntry(h, handler, pairs[i]);
    }
    SequenceNoError(f, routes);
    FlattenAligned(f, routes, PairRoutes(h, handler), pairs);
  }
}
