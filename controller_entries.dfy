/**
 * Reading the entries `generateControllers` builds: what an entry holds
 * under each of its keys, tied to the herbarium it was built from.
 */
module ControllerEntries {
  import opened Wrappers
  import opened Js
  import opened Meta
  import opened Routing
  import GC = GenerateControllers

  /** The slot an entry built by `generateControllers` holds under `key`, if any. */
  function SlotAt(info: Entries<GC.Info>, key: string): Option<GC.Slot> {
    var v := Get(info, key);
    if v.Some? && v.value.SlotInfo? then Some(v.value.slot) else None
  }

  /** The `name` of an entry built by `generateControllers`: its group, if any. */
  function NameAt(info: Entries<GC.Info>): Option<string> {
    var v := Get(info, "name");
    if v.Some? && v.value.NameInfo? then Some(v.value.name) else None
  }

  /** The `entity` of an entry built by `generateControllers`. */
  function EntityAt(info: Entries<GC.Info>): Option<EntityDesc> {
    var v := Get(info, "entity");
    if v.Some? && v.value.EntityInfo? then Some(v.value.entity) else None
  }

  /** The operation `generateControllers` looks a slot's use case up by. */
  function CrudOf(k: SlotKind): string {
    match k
    case GetAll => GC.CrudReadAll
    case GetById => GC.CrudRead
    case Post => GC.CrudCreate
    case Put => GC.CrudUpdate
    case Delete => GC.CrudDelete
  }

  /** The id a slot of an entry built by `generateControllers` carries: getById's only. */
  function SlotId(idName: string, k: SlotKind): Option<string> {
    if k == GetById then Some(idName) else None
  }

  /** The entry's `name` is the pair's group. */
  lemma NameOfEntry(h: GC.Herbarium, controller: Handler, pair: GC.Pair)
    requires GC.InfoOf(h, controller, pair).Success?
    ensures NameAt(GC.InfoOf(h, controller, pair).value) == pair.1
  {
    GC.EntryContents(h, controller, pair, "name");
  }

  /** The slot the entry holds under a slot's key: the first use case of the slot's operation, if any. */
  lemma SlotOfEntry(h: GC.Herbarium, controller: Handler, pair: GC.Pair, k: SlotKind)
    requires GC.InfoOf(h, controller, pair).Success?
    ensures var info := GC.InfoOf(h, controller, pair).value;
      var e := GC.ResolveEntity(h, pair.0).value;
      var idName := GC.IdName(FirstIdField(e.schema).value);
      var uc := GC.FindFirst(h.usecases, pair.0, CrudOf(k));
      SlotAt(info, KeyOf(k)) == if uc.None? then None else Some(GC.Slot(uc.value.id, controller, uc.value.rest, SlotId(idName, k)))
  {
    match k
    case GetAll => GC.EntryContents(h, controller, pair, "getAll");
    case GetById => GC.EntryContents(h, controller, pair, "getById");
    case Post => GC.EntryContents(h, controller, pair, "post");
    case Put => GC.EntryContents(h, controller, pair, "put");
    case Delete => GC.EntryContents(h, controller, pair, "delete");
  }

  /** The name of the ID field of a pair's entity, or `id`. */
  function PairIdName(h: GC.Herbarium, pair: GC.Pair): (n: string)
    ensures n != ""
  {
    var e := GC.ResolveEntity(h, pair.0);
    if e.Success? && FirstIdField(e.value.schema).Success? then GC.IdName(FirstIdField(e.value.schema).value) else "id"
  }

  /** The entry's `entity` is the pair's resolved entity. */
  lemma EntityOfEntry(h: GC.Herbarium, controller: Handler, pair: GC.Pair)
    requires GC.InfoOf(h, controller, pair).Success?
    ensures EntityAt(GC.InfoOf(h, controller, pair).value) == Some(GC.ResolveEntity(h, pair.0).value)
  {
    GC.EntryContents(h, controller, pair, "entity");
  }
}
