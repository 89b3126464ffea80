/**
 * The current `generateRoutes`: for each controller entry, the routes of its
 * CRUD slots registered on the router in the order getAll, getById, post,
 * put, delete; a slot names its use case factory (`useCase`), an optional
 * custom controller and, for the id routes, the path parameter name.
 */
module GenerateRoutes {
  import opened Wrappers
  import opened Js
  import opened Meta
  import opened Routing
  import GC = GenerateControllers
  import opened ControllerEntries

  /** A slot of a controller entry; `""` stands for a missing or empty `idParameter`. */
  datatype ControllerOp = ControllerOp(useCase: Option<string>, idParameter: string, customController: Option<Handler>)

  /** One element of `controllerList`. */
  datatype ControllerEntry = ControllerEntry(
    name: Option<string>,
    getAll: Option<ControllerOp>,
    getById: Option<ControllerOp>,
    post: Option<ControllerOp>,
    put: Option<ControllerOp>,
    delete: Option<ControllerOp>)

  function OpOf(c: ControllerEntry, k: SlotKind): Option<ControllerOp> {
    match k
    case GetAll => c.getAll
    case GetById => c.getById
    case Post => c.post
    case Put => c.put
    case Delete => c.delete
  }

  /** The TypeError of calling the missing use case factory of a slot. */
  function UseCaseNotAFunction(k: SlotKind): string {
    "TypeError: controller." + KeyOf(k) + ".useCase is not a function"
  }

  /** The route a present slot registers. */
  function SlotRegistration(name: Option<string>, k: SlotKind, op: ControllerOp): (r: Registration)
    ensures r.verb == VerbOf(k) && r.sources == SourcesOf(k) && r.usecase == op.useCase
    ensures HasId(k) && op.idParameter != "" ==> r.path == "/" + Render(name) + "/:" + op.idParameter
    ensures HasId(k) && op.idParameter == "" ==> r.path == "/" + Render(name) + "/:id"
    ensures !HasId(k) ==> r.path == "/" + Render(name)
    ensures op.customController.Some? ==> r.controller == op.customController
    ensures op.customController.None? ==> r.controller == Some(DefaultController)
  {
    var id := if op.idParameter != "" then op.idParameter else "id";
    RegistrationOf(name, k, id, op.useCase, Some(op.customController.GetOr(DefaultController)))
  }

  /**
   * The route of a slot, if the entry has it. `describe` says whether the
   * use case is asked for its description; asking a slot without a use case
   * throws.
   */
  function SlotRoute(c: ControllerEntry, k: SlotKind, describe: bool): Outcome {
    match OpOf(c, k)
    case None => Outcome([], None)
    case Some(op) =>
      if describe && op.useCase.None? then Outcome([], Some(UseCaseNotAFunction(k)))
      else Outcome([SlotRegistration(c.name, k, op)], None)
  }

  function SlotStep(c: ControllerEntry, describe: bool): SlotKind -> Outcome {
    k => SlotRoute(c, k, describe)
  }

  /** The routes of one entry: its slots in registration order, a throw ending the entry. */
  function EntryRoutes(c: ControllerEntry, describe: bool): Outcome {
    Sequence(SlotStep(c, describe), Kinds)
  }

  function EntryStep(describe: bool): ControllerEntry -> Outcome {
    c => EntryRoutes(c, describe)
  }

  /**
   * `generateRoutes(controllerList, app, endpointInfo)` as written: the log
   * line of every slot is built, and its use case described, whether or not
   * `endpointInfo` prints it. The run ends without error exactly when every
   * slot an entry has names its use case, and then registers every entry's
   * routes, entry by entry.
   */
  function RoutesAsWritten(list: seq<ControllerEntry>, endpointInfo: bool): (r: Outcome)
    ensures r.error.None? <==>
      forall i, k :: 0 <= i < |list| && k in Kinds && OpOf(list[i], k).Some? ==> OpOf(list[i], k).value.useCase.Some?
    ensures r.error.None? ==> r.regs == Flatten(Registered, list)
  {
    RoutesSpec(list, true);
    Sequence(EntryStep(true), list)
  }

  /**
   * `generateRoutes` with the use case described only for a printed log
   * line: without one, nothing throws and every entry's routes are
   * registered.
   */
  function Routes(list: seq<ControllerEntry>, endpointInfo: bool): (r: Outcome)
    ensures r.error.None? <==>
      forall i, k :: 0 <= i < |list| && k in Kinds && OpOf(list[i], k).Some? ==> !endpointInfo || OpOf(list[i], k).value.useCase.Some?
    ensures r.error.None? ==> r.regs == Flatten(Registered, list)
    ensures !endpointInfo ==> r == Outcome(Flatten(Registered, list), None)
  {
    RoutesSpec(list, endpointInfo);
    Sequence(EntryStep(endpointInfo), list)
  }

  /** The route a slot is meant to register, if the entry has the slot. */
  function Intended(c: ControllerEntry, k: SlotKind): Option<Registration> {
    match OpOf(c, k)
    case None => None
    case Some(op) => Some(SlotRegistration(c.name, k, op))
  }

  /**
   * An entry throws exactly when the use case of one of its slots is
   * described and missing; otherwise it registers one route per slot it
   * has, in the order getAll, getById, post, put, delete.
   */
  lemma EntryRoutesSpec(c: ControllerEntry, describe: bool)
    ensures EntryRoutes(c, describe).error.None? <==>
      forall k :: k in Kinds && OpOf(c, k).Some? ==> !describe || OpOf(c, k).value.useCase.Some?
    ensures EntryRoutes(c, describe).error.None? ==>
      EntryRoutes(c, describe).regs == Collect((k: SlotKind) => Intended(c, k), Kinds)
  {
    var f := SlotStep(c, describe);
    SequenceNoError(f, Kinds);
    if EntryRoutes(c, describe).error.None? {
      FlattenCollect(f, (k: SlotKind) => Intended(c, k), Kinds);
    }
  }

  /** What an entry registers when none of its slots throws. */
  function Registered(c: ControllerEntry): Outcome {
    Outcome(Collect((k: SlotKind) => Intended(c, k), Kinds), None)
  }

  /**
   * The entries in turn end without error exactly when no described slot
   * lacks its use case, and then register every entry's routes, entry by
   * entry.
   */
  lemma RoutesSpec(list: seq<ControllerEntry>, describe: bool)
    ensures Sequence(EntryStep(describe), list).error.None? <==>
      forall i, k :: 0 <= i < |list| && k in Kinds && OpOf(list[i], k).Some? ==> !describe || OpOf(list[i], k).value.useCase.Some?
    ensures Sequence(EntryStep(describe), list).error.None? ==> Sequence(EntryStep(describe), list).regs == Flatten(Registered, list)
  {
    var f := EntryStep(describe);
    forall i | 0 <= i < |list|
      ensures f(list[i]).error.None? <==>
        forall k :: k in Kinds && OpOf(list[i], k).Some? ==> !describe || OpOf(list[i], k).value.useCase.Some?
      ensures f(list[i]).error.None? ==> f(list[i]) == Registered(list[i])
    {
      EntryRoutesSpec(list[i], describe);
    }
    SequenceNoError(f, list);
    if Sequence(f, list).error.None? {
      FlattenAligned(f, list, Registered, list);
    }
  }

  // ---------------------------------------------------------------------------
  // Registering on the router
  // ---------------------------------------------------------------------------

  /** One `if (controller.<slot>) { ... }` block. */
  method RegisterSlot(app: Router, c: ControllerEntry, k: SlotKind, describe: bool) returns (err: Option<string>)
    modifies app
    ensures app.routes == old(app.routes) + SlotRoute(c, k, describe).regs
    ensures err == SlotRoute(c, k, describe).error
  {
    match OpOf(c, k) {
      case None =>
        err := None;
      case Some(op) =>
        if describe && op.useCase.None? {
          err := Some(UseCaseNotAFunction(k));
          return;
        }
        app.Register(SlotRegistration(c.name, k, op));
        err := None;
    }
  }

  /** What the first `n` slot blocks of an entry register. */
  function EntryPrefix(c: ControllerEntry, describe: bool, n: nat): Outcome
    requires n <= |Kinds|
  {
    Sequence(SlotStep(c, describe), Kinds[..n])
  }

  /**
   * An entry's walk over its slots ends once a slot throws, or after the
   * last slot: what the first `n` blocks registered on top of `start` is
   * what the entry registers.
   */
  lemma EntryEnds(c: ControllerEntry, describe: bool, n: nat, start: seq<Registration>, routes: seq<Registration>, err: Option<string>)
    requires 0 < n <= |Kinds|
    requires routes == start + EntryPrefix(c, describe, n).regs && err == EntryPrefix(c, describe, n).error
    requires n < |Kinds| ==> err.Some?
    ensures routes == start + EntryRoutes(c, describe).regs && err == EntryRoutes(c, describe).error
  {
    if n < |Kinds| {
      SequenceStops(SlotStep(c, describe), Kinds, n);
    } else {
      assert Kinds[..n] == Kinds;
    }
  }

  /** Before the first block, nothing is registered. */
  lemma EntryStarts(c: ControllerEntry, describe: bool)
    ensures EntryPrefix(c, describe, 0) == Outcome([], None)
  {
    assert Kinds[..0] == [];
  }

  /** The block of the `i`-th slot, run after the blocks before it have not thrown. */
  method RegisterNext(app: Router, c: ControllerEntry, describe: bool, i: nat, ghost start: seq<Registration>) returns (err: Option<string>)
    requires i < |Kinds| && EntryPrefix(c, describe, i).error.None?
    requires app.routes == start + EntryPrefix(c, describe, i).regs
    modifies app
    ensures app.routes == start + EntryPrefix(c, describe, i + 1).regs
    ensures err == EntryPrefix(c, describe, i + 1).error
    ensures err.Some? || i + 1 == |Kinds| ==> app.routes == start + EntryRoutes(c, describe).regs && err == EntryRoutes(c, describe).error
  {
    err := RegisterSlot(app, c, Kinds[i], describe);
    SequenceAdvance(SlotStep(c, describe), Kinds, i, start);
    if err.Some? || i + 1 == |Kinds| {
      EntryEnds(c, describe, i + 1, start, app.routes, err);
    }
  }

  /** The body of the `forEach` callback: the five slot blocks in order (getAll, getById, post, put, delete), a throw ending the run. */
  method RegisterEntry(app: Router, c: ControllerEntry, describe: bool) returns (err: Option<string>)
    modifies app
    ensures app.routes == old(app.routes) + EntryRoutes(c, describe).regs
    ensures err == EntryRoutes(c, describe).error
  {
    ghost var start := app.routes;
    EntryStarts(c, describe);
    err := None;
    var i := 0;
    while i < |Kinds|
      invariant i <= |Kinds| && EntryPrefix(c, describe, i).error.None?
      invariant app.routes == start + EntryPrefix(c, describe, i).regs
      invariant i == |Kinds| ==> app.routes == start + EntryRoutes(c, describe).regs && err == EntryRoutes(c, describe).error
    {
      err := RegisterNext(app, c, describe, i, start);
      if err.Some? {
        return;
      }
      i := i + 1;
    }
  }

  /**
   * `generateRoutes(controllerList, app, endpointInfo)`: the entries in
   * turn, every slot's use case described whatever `endpointInfo` says;
   * `err` is the TypeError that ends the run, if any, and the routes
   * registered before it stay registered.
   */
  method GenerateRoutes(list: seq<ControllerEntry>, app: Router, endpointInfo: bool) returns (err: Option<string>)
    modifies app
    ensures app.routes == old(app.routes) + RoutesAsWritten(list, endpointInfo).regs
    ensures err == RoutesAsWritten(list, endpointInfo).error
  {
    ghost var f := EntryStep(true);
    ghost var start := app.routes;
    err := None;
    var i := 0;
    while i < |list|
      invariant 0 <= i <= |list|
      invariant app.routes == start + Sequence(f, list[..i]).regs
      invariant Sequence(f, list[..i]).error == None && err == None
    {
      err := RegisterEntry(app, list[i], true);
      SequenceAdvance(f, list, i, start);
      if err.Some? {
        return;
      }
      i := i + 1;
    }
    assert list[..|list|] == list;
  }

  // ---------------------------------------------------------------------------
  // The eagerly built log line
  // ---------------------------------------------------------------------------

  /** `{ name, getAll: {} }`: an entry with a getAll slot that names nothing. */
  function GetAllOnly(name: string): ControllerEntry {
    ControllerEntry(Some(name), Some(ControllerOp(None, "", None)), None, None, None, None)
  }

  /** `{ name, getById: {} }` */
  function GetByIdOnly(name: string): ControllerEntry {
    ControllerEntry(Some(name), None, Some(ControllerOp(None, "", None)), None, None, None)
  }

  /**
   * As written, a slot without a use case throws even when nothing is
   * logged: for `[{ name: 'lists', getAll: {} }]`, `GET /lists` is never
   * registered.
   */
  lemma GetAllOnlyThrows(name: string, endpointInfo: bool)
    ensures RoutesAsWritten([GetAllOnly(name)], endpointInfo) == Outcome([], Some("TypeError: controller.getAll.useCase is not a function"))
  {
    FirstSlotThrows(GetAllOnly(name), true);
    SequenceOne(EntryStep(true), [GetAllOnly(name)]);
    GetAllMessage();
  }

  /** The message of a getAll slot without a use case. */
  lemma GetAllMessage()
    ensures UseCaseNotAFunction(GetAll) == "TypeError: controller.getAll.useCase is not a function"
  {
    assert KeyOf(GetAll) == "getAll";
    assert "TypeError: controller." + "getAll" + ".useCase is not a function" == "TypeError: controller.getAll.useCase is not a function";
  }

  /** An entry whose getAll slot throws registers nothing. */
  lemma FirstSlotThrows(c: ControllerEntry, describe: bool)
    requires c.getAll.Some? && describe && c.getAll.value.useCase.None?
    ensures EntryRoutes(c, describe) == Outcome([], Some(UseCaseNotAFunction(GetAll)))
  {
    var err := Some(UseCaseNotAFunction(GetAll));
    EntryStarts(c, describe);
    SequenceAdvance(SlotStep(c, describe), Kinds, 0, []);
    EntryEnds(c, describe, 1, [], [], err);
  }

  /**
   * Describing only for a printed log line, `[{ name: 'lists', getAll: {} }]`
   * registers `GET /lists` with the default controller.
   */
  lemma GetAllOnlyRegisters(name: string)
    ensures Routes([GetAllOnly(name)], false) == Outcome([Registration("GET", "/" + name, ["query"], None, Some(DefaultController))], None)
  {
    var c := GetAllOnly(name);
    assert Routes([c], false) == Outcome(Flatten(Registered, [c]), None);
    assert [c][..0] == [];
    assert Flatten(Registered, [c]) == Registered(c).regs;
    CollectKinds((k: SlotKind) => Intended(c, k));
  }

  /** `[{ name: 'lists', getById: {} }]` registers `GET /lists/:id`. */
  lemma GetByIdOnlyRegisters(name: string)
    ensures Routes([GetByIdOnly(name)], false) == Outcome([Registration("GET", "/" + name + "/:id", ["query", "params"], None, Some(DefaultController))], None)
  {
    var c := GetByIdOnly(name);
    assert Routes([c], false) == Outcome(Flatten(Registered, [c]), None);
    assert [c][..0] == [];
    assert Flatten(Registered, [c]) == Registered(c).regs;
    CollectKinds((k: SlotKind) => Intended(c, k));
  }

  // ---------------------------------------------------------------------------
  // Entries built by generateControllers
  // ---------------------------------------------------------------------------

  /**
   * An entry built by `generateControllers` as this generation reads it, as
   * written: it looks for `useCase`, `customController` and `idParameter`,
   * while the entry holds `usecase`, `controller` and `id`, so every slot
   * reads as `{}`.
   */
  function ReadAsWritten(info: Entries<GC.Info>): ControllerEntry {
    var read := (key: string) => if SlotAt(info, key).Some? then Some(ControllerOp(None, "", None)) else None;
    ControllerEntry(NameAt(info), read("getAll"), read("getById"), read("post"), read("put"), read("delete"))
  }

  /** The entry read through the properties it holds. */
  function ReadIntended(info: Entries<GC.Info>): ControllerEntry {
    var read := (key: string) =>
      match SlotAt(info, key)
      case None => None
      case Some(slot) => Some(ControllerOp(Some(slot.usecase), slot.id.GetOr(""), Some(slot.controller)));
    ControllerEntry(NameAt(info), read("getAll"), read("getById"), read("post"), read("put"), read("delete"))
  }

  /**
   * The route the entry `generateControllers` builds for `pair` is meant to
   * register for a slot: one exactly when the entity has a use case of the
   * slot's operation, under the group's name, calling the first such use
   * case through `controller`; getById takes the entity's ID field name
   * (`idName`) as its path parameter, put and delete `id`.
   */
  function Expected(h: GC.Herbarium, controller: Handler, pair: GC.Pair, idName: string, k: SlotKind): Option<Registration> {
    match GC.FindFirst(h.usecases, pair.0, CrudOf(k))
    case None => None
    case Some(uc) => Some(RegistrationOf(pair.1, k, if k == GetById then idName else "id", Some(uc.id), Some(controller)))
  }

  /**
   * Read as written, the entry has a slot exactly where the entity has a
   * use case of the slot's operation, and none of them names its use case.
   */
  lemma SlotAsWritten(h: GC.Herbarium, controller: Handler, pair: GC.Pair, k: SlotKind)
    requires GC.InfoOf(h, controller, pair).Success?
    ensures var c := ReadAsWritten(GC.InfoOf(h, controller, pair).value);
      && (OpOf(c, k).Some? <==> GC.FindFirst(h.usecases, pair.0, CrudOf(k)).Some?)
      && (OpOf(c, k).Some? ==> OpOf(c, k).value.useCase.None?)
  {
    SlotOfEntry(h, controller, pair, k);
  }

  /**
   * Read through the properties it holds, the entry's slot registers the
   * expected route and names its use case.
   */
  lemma SlotIntended(h: GC.Herbarium, controller: Handler, pair: GC.Pair, k: SlotKind)
    requires GC.InfoOf(h, controller, pair).Success?
    ensures var info := GC.InfoOf(h, controller, pair).value;
      var e := GC.ResolveEntity(h, pair.0).value;
      var idName := GC.IdName(FirstIdField(e.schema).value);
      && Intended(ReadIntended(info), k) == Expected(h, controller, pair, idName, k)
      && (OpOf(ReadIntended(info), k).Some? ==> OpOf(ReadIntended(info), k).value.useCase.Some?)
  {
    var info := GC.InfoOf(h, controller, pair).value;
    var idName := GC.IdName(FirstIdField(GC.ResolveEntity(h, pair.0).value.schema).value);
    NameOfEntry(h, controller, pair);
    SlotOfEntry(h, controller, pair, k);
    SlotRegisters(info, h, controller, pair, idName, k);
  }

  /** A slot holding the first use case of its operation registers the expected route. */
  lemma SlotRegisters(info: Entries<GC.Info>, h: GC.Herbarium, controller: Handler, pair: GC.Pair, idName: string, k: SlotKind)
    requires NameAt(info) == pair.1 && idName != ""
    requires var uc := GC.FindFirst(h.usecases, pair.0, CrudOf(k));
      SlotAt(info, KeyOf(k)) == if uc.None? then None else Some(GC.Slot(uc.value.id, controller, uc.value.rest, SlotId(idName, k)))
    ensures Intended(ReadIntended(info), k) == Expected(h, controller, pair, idName, k)
    ensures OpOf(ReadIntended(info), k).Some? ==> OpOf(ReadIntended(info), k).value.useCase.Some?
  {
    var uc := GC.FindFirst(h.usecases, pair.0, CrudOf(k));
    IntendedFromSlot(info, k);
    if uc.Some? {
      var op := ControllerOp(Some(uc.value.id), SlotId(idName, k).GetOr(""), Some(controller));
      assert Intended(ReadIntended(info), k) == Some(SlotRegistration(pair.1, k, op));
    }
  }

  /** The route a slot read through the properties it holds registers. */
  lemma IntendedFromSlot(info: Entries<GC.Info>, k: SlotKind)
    ensures var slot := SlotAt(info, KeyOf(k));
      Intended(ReadIntended(info), k) ==
        if slot.None? then None
        else Some(SlotRegistration(NameAt(info), k, ControllerOp(Some(slot.value.usecase), slot.value.id.GetOr(""), Some(slot.value.controller))))
  {
  }

  /** The routes the entry of a pair is meant to register, slot by slot. */
  function PairRoutes(h: GC.Herbarium, controller: Handler): GC.Pair -> Outcome {
    pair => Outcome(Collect((k: SlotKind) => Expected(h, controller, pair, PairIdName(h, pair), k), Kinds), None)
  }

  /** The entries `generateControllers` built, read as written. */
  function ReadAllAsWritten(infos: seq<Entries<GC.Info>>): (list: seq<ControllerEntry>)
    ensures |list| == |infos| && forall i :: 0 <= i < |infos| ==> list[i] == ReadAsWritten(infos[i])
  {
    seq(|infos|, i requires 0 <= i < |infos| => ReadAsWritten(infos[i]))
  }

  /** The entries `generateControllers` built, read through the properties they hold. */
  function ReadAllIntended(infos: seq<Entries<GC.Info>>): (list: seq<ControllerEntry>)
    ensures |list| == |infos| && forall i :: 0 <= i < |infos| ==> list[i] == ReadIntended(infos[i])
  {
    seq(|infos|, i requires 0 <= i < |infos| => ReadIntended(infos[i]))
  }

  /**
   * As written, the entry of a pair registers no route, and throws exactly
   * when the entity has a use case for one of the five operations.
   */
  lemma EntryAsWritten(h: GC.Herbarium, controller: Handler, pair: GC.Pair)
    requires GC.InfoOf(h, controller, pair).Success?
    ensures var r := EntryRoutes(ReadAsWritten(GC.InfoOf(h, controller, pair).value), true);
      && r.regs == []
      && (r.error.Some? <==> exists k :: k in Kinds && GC.FindFirst(h.usecases, pair.0, CrudOf(k)).Some?)
  {
    var c := ReadAsWritten(GC.InfoOf(h, controller, pair).value);
    forall k | k in Kinds
      ensures OpOf(c, k).Some? <==> GC.FindFirst(h.usecases, pair.0, CrudOf(k)).Some?
      ensures OpOf(c, k).Some? ==> OpOf(c, k).value.useCase.None?
    {
      SlotAsWritten(h, controller, pair, k);
    }
    EntryRoutesSpec(c, true);
    SequenceSilent(SlotStep(c, true), Kinds);
  }

  /**
   * Read through the properties it holds, the entry of a pair registers,
   * described or not, exactly the routes it is meant to.
   */
  lemma EntryIntended(h: GC.Herbarium, controller: Handler, pair: GC.Pair, describe: bool)
    requires GC.InfoOf(h, controller, pair).Success?
    ensures EntryRoutes(ReadIntended(GC.InfoOf(h, controller, pair).value), describe) == PairRoutes(h, controller)(pair)
  {
    var info := GC.InfoOf(h, controller, pair).value;
    var c := ReadIntended(info);
    var idName := PairIdName(h, pair);
    forall k | k in Kinds
      ensures Intended(c, k) == Expected(h, controller, pair, idName, k)
      ensures OpOf(c, k).Some? ==> OpOf(c, k).value.useCase.Some?
    {
      SlotIntended(h, controller, pair, k);
    }
    EntryRoutesSpec(c, describe);
    CollectSame((k: SlotKind) => Intended(c, k), (k: SlotKind) => Expected(h, controller, pair, idName, k), Kinds);
  }

  /**
   * As written, the routes generated from the entries `generateControllers`
   * builds register nothing, and the run throws as soon as an entity has a
   * use case for one of the five operations.
   */
  lemma GeneratedRoutesAsWritten(h: GC.Herbarium, controller: Option<Handler>, endpointInfo: bool)
    requires GC.Controllers(h, controller).Success?
    ensures var pairs := GC.FindEntitiesAndGroups(h.usecases);
      var r := RoutesAsWritten(ReadAllAsWritten(GC.Controllers(h, controller).value), endpointInfo);
      && r.regs == []
      && (r.error.Some? <==> exists i, k :: 0 <= i < |pairs| && k in Kinds && GC.FindFirst(h.usecases, pairs[i].0, CrudOf(k)).Some?)
  {
    var pairs := GC.FindEntitiesAndGroups(h.usecases);
    var handler := controller.GetOr(DefaultController);
    var list := ReadAllAsWritten(GC.Controllers(h, controller).value);
    var f := EntryStep(true);
    GC.ControllersPointwise(h, controller);
    forall i | 0 <= i < |list|
      ensures f(list[i]).regs == []
      ensures f(list[i]).error.Some? <==> exists k :: k in Kinds && GC.FindFirst(h.usecases, pairs[i].0, CrudOf(k)).Some?
    {
      EntryAsWritten(h, handler, pairs[i]);
    }
    SequenceSilent(f, list);
    SequenceNoError(f, list);
  }

  /**
   * Read through the properties they hold, the entries `generateControllers`
   * builds register, logged or not, the routes each pair is meant to, pair
   * by pair.
   */
  lemma GeneratedRoutesIntended(h: GC.Herbarium, controller: Option<Handler>, endpointInfo: bool)
    requires GC.Controllers(h, controller).Success?
    ensures var pairs := GC.FindEntitiesAndGroups(h.usecases);
      var handler := controller.GetOr(DefaultController);
      Routes(ReadAllIntended(GC.Controllers(h, controller).value), endpointInfo) == Outcome(Flatten(PairRoutes(h, handler), pairs), None)
  {
    var pairs := GC.FindEntitiesAndGroups(h.usecases);
    var handler := controller.GetOr(DefaultController);
    var list := ReadAllIntended(GC.Controllers(h, controller).value);
    var f := EntryStep(endpointInfo);
    GC.ControllersPointwise(h, controller);
    forall i | 0 <= i < |list|
      ensures f(list[i]) == PairRoutes(h, handler)(pairs[i])
    {
      EntryIntended(h, handler, pairs[i], endpointInfo);
    }
    SequenceNoError(f, list);
    FlattenAligned(f, list, PairRoutes(h, handler), pairs);
  }
}
