/**
 * `generateControllers`: one controller entry per distinct (entity, group)
 * pair of the herbarium's use cases, holding, for each CRUD slot, the first
 * use case of that entity and operation. Keys whose value is `undefined`
 * are deleted from each entry.
 */
module GenerateControllers {
  import opened Wrappers
  import opened Js
  import opened Meta

  /**
   * `usecaseItem.entity`: nothing, the name of an entity registered in the
   * herbarium, or an entity class (classes compare as values).
   */
  datatype EntityRef = NoEntity | Named(name: string) | Class(entity: EntityDesc)

  /**
   * A use case as the herbarium lists it: its id (standing for the use-case
   * function), its entity, group and operation metadata, and its REST
   * metadata, which is carried through untouched.
   */
  datatype UseCaseItem = UseCaseItem(id: string, entity: EntityRef, group: Option<string>, operation: string, rest: Value)

  /** The parts of the herbarium read here: use cases in insertion order and entities by name. */
  datatype Herbarium = Herbarium(usecases: seq<UseCaseItem>, entities: Entries<EntityDesc>)

  /** `herbarium.crud`: the operation names. */
  const CrudReadAll := "readAll"
  const CrudRead := "read"
  const CrudCreate := "create"
  const CrudUpdate := "update"
  const CrudDelete := "delete"

  // ---------------------------------------------------------------------------
  // findEntitiesAndGroups
  // ---------------------------------------------------------------------------

  type Pair = (EntityRef, Option<string>)

  /** `{ entity: usecaseItem.entity, group: usecaseItem.group }` for every use case. */
  function Pairs(items: seq<UseCaseItem>): (ps: seq<Pair>)
    ensures |ps| == |items|
    ensures forall i :: 0 <= i < |items| ==> ps[i] == (items[i].entity, items[i].group)
  {
    seq(|items|, i requires 0 <= i < |items| => (items[i].entity, items[i].group))
  }

  /**
   * `s.filter((x, index, self) => self.findIndex(y => y equals x) === index)`
   * applied to the first `n` elements: an element is kept when no earlier
   * element equals it.
   */
  function FirstOccurrences<T(==)>(s: seq<T>, n: nat): seq<T>
    requires n <= |s|
  {
    if n == 0 then []
    else FirstOccurrences(s, n - 1) + (if s[n - 1] !in s[..n - 1] then [s[n - 1]] else [])
  }

  /** `findEntitiesAndGroups(herbarium)` */
  function FindEntitiesAndGroups(items: seq<UseCaseItem>): (r: seq<Pair>)
    ensures NoDuplicates(r)
    ensures forall x :: x in r <==> x in Pairs(items)
  {
    FirstOccurrencesMembers(Pairs(items), |items|);
    FirstOccurrencesDistinct(Pairs(items), |items|);
    FirstOccurrences(Pairs(items), |items|)
  }

  predicate NoDuplicates<T(==)>(s: seq<T>) {
    forall p, q :: 0 <= p < q < |s| ==> s[p] != s[q]
  }

  /** The kept elements are exactly the elements among the first `n`. */
  lemma {:induction false} FirstOccurrencesMembers<T>(s: seq<T>, n: nat)
    requires n <= |s|
    ensures forall x :: x in FirstOccurrences(s, n) ==> exists i :: 0 <= i < n && s[i] == x
    ensures forall i :: 0 <= i < n ==> s[i] in FirstOccurrences(s, n)
  {
    if n > 0 {
      FirstOccurrencesMembers(s, n - 1);
      if s[n - 1] in s[..n - 1] {
        var j :| 0 <= j < n - 1 && s[..n - 1][j] == s[n - 1];
        assert s[j] == s[n - 1];
      }
    }
  }

  /** No element is kept twice. */
  lemma {:induction false} FirstOccurrencesDistinct<T>(s: seq<T>, n: nat)
    requires n <= |s|
    ensures NoDuplicates(FirstOccurrences(s, n))
  {
    if n > 0 {
      FirstOccurrencesDistinct(s, n - 1);
      FirstOccurrencesMembers(s, n - 1);
      var prev := FirstOccurrences(s, n - 1);
      if s[n - 1] !in s[..n - 1] {
        var r := prev + [s[n - 1]];
        forall p, q | 0 <= p < q < |r| ensures r[p] != r[q] {
          if q == |prev| {
            assert r[p] == prev[p] && prev[p] in FirstOccurrences(s, n - 1);
            var j :| 0 <= j < n - 1 && s[j] == prev[p];
            assert s[..n - 1][j] == s[j];
          } else {
            assert r[p] == prev[p] && r[q] == prev[q];
          }
        }
      }
    }
  }

  /** The positions of the kept elements. */
  ghost function KeptPositions<T>(s: seq<T>, n: nat): seq<nat>
    requires n <= |s|
  {
    if n == 0 then []
    else KeptPositions(s, n - 1) + (if s[n - 1] !in s[..n - 1] then [n - 1] else [])
  }

  /**
   * The kept elements are the elements at increasing positions of the
   * input, each position the first occurrence of its element.
   */
  lemma {:induction false} FirstOccurrencesPositions<T>(s: seq<T>, n: nat)
    requires n <= |s|
    ensures |KeptPositions(s, n)| == |FirstOccurrences(s, n)|
    ensures var ks := KeptPositions(s, n);
      forall p :: 0 <= p < |ks| ==> ks[p] < n && FirstOccurrences(s, n)[p] == s[ks[p]] && s[ks[p]] !in s[..ks[p]]
    ensures var ks := KeptPositions(s, n);
      forall p, q :: 0 <= p < q < |ks| ==> ks[p] < ks[q]
  {
    if n > 0 {
      FirstOccurrencesPositions(s, n - 1);
    }
  }

  /**
   * `findEntitiesAndGroups` lists every (entity, group) pair of the use
   * cases exactly once, in the order each first occurs.
   */
  lemma EntitiesAndGroups(items: seq<UseCaseItem>)
    ensures NoDuplicates(FindEntitiesAndGroups(items))
    ensures forall x :: x in FindEntitiesAndGroups(items) ==> x in Pairs(items)
    ensures forall i :: 0 <= i < |items| ==> (items[i].entity, items[i].group) in FindEntitiesAndGroups(items)
    ensures var r := FindEntitiesAndGroups(items);
      var ks := KeptPositions(Pairs(items), |items|);
      && |ks| == |r|
      && (forall p :: 0 <= p < |r| ==> ks[p] < |items| && r[p] == Pairs(items)[ks[p]] && r[p] !in Pairs(items)[..ks[p]])
      && (forall p, q :: 0 <= p < q < |r| ==> ks[p] < ks[q])
  {
    var ps := Pairs(items);
    FirstOccurrencesMembers(ps, |items|);
    FirstOccurrencesDistinct(ps, |items|);
    FirstOccurrencesPositions(ps, |items|);
  }

  // ---------------------------------------------------------------------------
  // findUsecases
  // ---------------------------------------------------------------------------

  predicate Matches(item: UseCaseItem, entity: EntityRef, op: string) {
    item.entity == entity && item.operation == op
  }

  /** `usecases.findBy({ entity, operation })[0]`: the first use case of that entity and operation. */
  function FindFirst(items: seq<UseCaseItem>, entity: EntityRef, op: string): (r: Option<UseCaseItem>)
    ensures r.Some? <==> exists i :: 0 <= i < |items| && Matches(items[i], entity, op)
    ensures r.Some? ==> Matches(r.value, entity, op)
    ensures r.Some? ==>
      exists i :: 0 <= i < |items| && items[i] == r.value && forall j :: 0 <= j < i ==> !Matches(items[j], entity, op)
  {
    if items == [] then None
    else if Matches(items[0], entity, op) then Some(items[0])
    else
      var r := FindFirst(items[1..], entity, op);
      assert forall i :: 1 <= i < |items| ==> items[i] == items[1..][i - 1];
      r
  }

  // ---------------------------------------------------------------------------
  // The controller entry
  // ---------------------------------------------------------------------------

  /** One CRUD slot of an entry: the use case, the controller, the REST metadata and, for getById, the id. */
  datatype Slot = Slot(usecase: string, controller: Handler, rest: Value, id: Option<string>)

  /** A property value of an entry; `Undef` is `undefined`. */
  datatype Info = EntityInfo(entity: EntityDesc) | NameInfo(name: string) | SlotInfo(slot: Slot) | Undef

  const EntityOfUndefined := "TypeError: Cannot read properties of undefined (reading 'entity')"
  const SchemaOfUndefined := "TypeError: Cannot read properties of undefined (reading 'schema')"

  /** The entity class of a pair: a name is looked up among the herbarium's entities. */
  function ResolveEntity(h: Herbarium, ref: EntityRef): (r: Result<EntityDesc, string>)
    ensures ref.Class? ==> r == Success(ref.entity)
    ensures ref.Named? ==> (r.Success? <==> ref.name in Keys(h.entities))
    ensures ref.NoEntity? ==> r == Failure(SchemaOfUndefined)
  {
    match ref
    case Class(e) => Success(e)
    case Named(n) => if Get(h.entities, n).Some? then Success(Get(h.entities, n).value) else Failure(EntityOfUndefined)
    case NoEntity => Failure(SchemaOfUndefined)
  }

  /** `resourceId?.name || 'id'` */
  function IdName(first: Option<string>): (n: string)
    ensures n != ""
    ensures first.Some? && first.value != "" ==> n == first.value
    ensures first.None? || first.value == "" ==> n == "id"
  {
    if first.Some? && first.value != "" then first.value else "id"
  }

  /** A slot's value: the first matching use case, or `undefined`. */
  function SlotOf(h: Herbarium, controller: Handler, entity: EntityRef, op: string, id: Option<string>): Info {
    match FindFirst(h.usecases, entity, op)
    case None => Undef
    case Some(uc) => SlotInfo(Slot(uc.id, controller, uc.rest, id))
  }

  /** `controllerInfos` as the object literal builds it. */
  function InitialInfo(h: Herbarium, controller: Handler, pair: Pair, entity: EntityDesc, idName: string): Entries<Info> {
    [ ("entity", EntityInfo(entity)),
      ("name", if pair.1.Some? then NameInfo(pair.1.value) else Undef),
      ("getAll", SlotOf(h, controller, pair.0, CrudReadAll, None)),
      ("getById", SlotOf(h, controller, pair.0, CrudRead, Some(idName))),
      ("post", SlotOf(h, controller, pair.0, CrudCreate, None)),
      ("put", SlotOf(h, controller, pair.0, CrudUpdate, None)),
      ("delete", SlotOf(h, controller, pair.0, CrudDelete, None)) ]
  }

  /** The entries of the first `|info|` properties whose value is not `undefined`. */
  function Defined(info: Entries<Info>): Entries<Info>
  {
    if info == [] then []
    else
      var last := info[|info| - 1];
      Defined(info[..|info| - 1]) + if last.1 == Undef then [] else [last]
  }

  /** Deleting the `undefined` properties leaves the others as they were. */
  lemma {:induction false} DefinedGet(info: Entries<Info>, k: string)
    requires DistinctKeys(info)
    ensures Get(Defined(info), k) == if Get(info, k) == Some(Undef) then None else Get(info, k)
    decreases |info|
  {
    if info != [] {
      var prefix := info[..|info| - 1];
      var (f, v) := info[|info| - 1];
      var d := Defined(prefix);
      assert info == prefix + [(f, v)];
      assert Defined(info) == if v == Undef then d else d + [(f, v)];
      assert DistinctKeys(prefix);
      DefinedGet(prefix, k);
      GetAppend(prefix, f, v, k);
      GetAppend(d, f, v, k);
      if k == f {
        assert f !in Keys(prefix) by {
          forall i | 0 <= i < |prefix| ensures Keys(prefix)[i] != f {
            assert prefix[i] == info[i];
          }
        }
      }
    }
  }

  /** Reading and deleting a key held once, by the entry `x` between `d` and `rest`. */
  lemma DropEntry<V>(d: Entries<V>, x: (string, V), rest: Entries<V>)
    requires x.0 !in Keys(d) && x.0 !in Keys(rest)
    ensures Get(d + ([x] + rest), x.0) == Some(x.1)
    ensures Delete(d + ([x] + rest), x.0) == d + rest
    ensures d + ([x] + rest) == (d + [x]) + rest
  {
    GetConcat(d, [x] + rest, x.0);
    DeleteConcat(d, [x] + rest, x.0);
    assert Delete(d, x.0) == d && Delete(rest, x.0) == rest;
    assert ([x] + rest)[1..] == rest;
    ConcatAssoc(d, [x], rest);
  }

  /** One iteration of the deletion loop: the key at `i` occurs neither before nor after it. */
  lemma DropStep(info: Entries<Info>, i: nat)
    requires DistinctKeys(info) && i < |info|
    ensures info[i].0 !in Keys(Defined(info[..i]))
    ensures info[i].0 !in Keys(info[i + 1..])
    ensures info[i..] == [info[i]] + info[i + 1..]
    ensures Defined(info[..i + 1]) == Defined(info[..i]) + if info[i].1 == Undef then [] else [info[i]]
  {
    var k := info[i].0;
    var prefix := info[..i];
    assert info[i..] == [info[i]] + info[i + 1..] by {
      assert info[i..][0] == info[i] && info[i..][1..] == info[i + 1..];
    }
    assert info[..i + 1][..i] == prefix;
    assert DistinctKeys(prefix);
    DefinedGet(prefix, k);
    assert k !in Keys(prefix) by {
      forall j | 0 <= j < |prefix| ensures Keys(prefix)[j] != k {
        assert prefix[j] == info[j];
      }
    }
    var rest := info[i + 1..];
    assert k !in Keys(rest) by {
      forall j | 0 <= j < |rest| ensures Keys(rest)[j] != k {
        assert rest[j] == info[i + 1 + j];
      }
    }
  }

  /** The deletion loop's invariant is kept by one iteration. */
  lemma DropIteration(info: Entries<Info>, i: nat, r: Entries<Info>)
    requires DistinctKeys(info) && i < |info|
    requires r == Defined(info[..i]) + info[i..]
    ensures Get(r, info[i].0) == Some(info[i].1)
    ensures info[i].1 == Undef ==> Delete(r, info[i].0) == Defined(info[..i + 1]) + info[i + 1..]
    ensures info[i].1 != Undef ==> r == Defined(info[..i + 1]) + info[i + 1..]
  {
    DropStep(info, i);
    var d, x, rest := Defined(info[..i]), info[i], info[i + 1..];
    assert r == d + ([x] + rest);
    DropEntry(d, x, rest);
    if x.1 == Undef {
      assert Defined(info[..i + 1]) == d + [];
      assert d + [] == d;
    } else {
      assert Defined(info[..i + 1]) == d + [x];
    }
  }

  /** `Object.keys(controllerInfos).forEach(key => { if (controllerInfos[key] === undefined) delete controllerInfos[key] })` */
  method DropUndefined(info: Entries<Info>) returns (r: Entries<Info>)
    requires DistinctKeys(info)
    ensures r == Defined(info)
  {
    r := info;
    var i := 0;
    while i < |info|
      invariant 0 <= i <= |info|
      invariant r == Defined(info[..i]) + info[i..]
    {
      var key := info[i].0;
      DropIteration(info, i, r);
      if Get(r, key) == Some(Undef) {
        r := Delete(r, key);
      }
      i := i + 1;
    }
    assert info[..|info|] == info;
  }

  // ---------------------------------------------------------------------------
  // generateControllers
  // ---------------------------------------------------------------------------

  /** Every property of the literal is named once. */
  lemma InitialDistinct(h: Herbarium, controller: Handler, pair: Pair, entity: EntityDesc, idName: string)
    ensures DistinctKeys(InitialInfo(h, controller, pair, entity, idName))
  {
  }

  /** The entry of one (entity, group) pair, or the TypeError building it throws. */
  function InfoOf(h: Herbarium, controller: Handler, pair: Pair): Result<Entries<Info>, string> {
    var entity :- ResolveEntity(h, pair.0);
    var first :- FirstIdField(entity.schema);
    Success(Defined(InitialInfo(h, controller, pair, entity, IdName(first))))
  }

  /** `xs.map(f)` where `f` may throw: the results in order, or the first error. */
  function MapOrFail<A, B>(f: A -> Result<B, string>, xs: seq<A>): Result<seq<B>, string>
    decreases |xs|
  {
    if xs == [] then Success([])
    else
      var done :- MapOrFail(f, xs[..|xs| - 1]);
      var y :- f(xs[|xs| - 1]);
      Success(done + [y])
  }

  /** `generateControllers({ herbarium, controller })`; an absent controller is the default one. */
  function Controllers(h: Herbarium, controller: Option<Handler>): (r: Result<seq<Entries<Info>>, string>)
    ensures var pairs := FindEntitiesAndGroups(h.usecases);
      var handler := controller.GetOr(DefaultController);
      && (r.Success? <==> forall i :: 0 <= i < |pairs| ==> InfoOf(h, handler, pairs[i]).Success?)
      && (r.Success? ==> |r.value| == |pairs| && forall i :: 0 <= i < |pairs| ==> r.value[i] == InfoOf(h, handler, pairs[i]).value)
  {
    var handler := controller.GetOr(DefaultController);
    MapPointwise((pair: Pair) => InfoOf(h, handler, pair), FindEntitiesAndGroups(h.usecases));
    MapOrFail((pair: Pair) => InfoOf(h, handler, pair), FindEntitiesAndGroups(h.usecases))
  }

  /** Once an element throws, the map stops with that error. */
  lemma {:induction false} MapStops<A, B>(f: A -> Result<B, string>, xs: seq<A>, n: nat)
    requires n <= |xs| && MapOrFail(f, xs[..n]).Failure?
    ensures MapOrFail(f, xs) == MapOrFail(f, xs[..n])
    decreases |xs|
  {
    if n == |xs| {
      assert xs[..n] == xs;
    } else {
      var prefix := xs[..|xs| - 1];
      assert prefix[..n] == xs[..n];
      MapStops(f, prefix, n);
    }
  }

  /**
   * The map succeeds exactly when every element's call does, and then lists
   * those results in order.
   */
  lemma {:induction false} MapPointwise<A, B>(f: A -> Result<B, string>, xs: seq<A>)
    ensures MapOrFail(f, xs).Success? <==> forall i :: 0 <= i < |xs| ==> f(xs[i]).Success?
    ensures MapOrFail(f, xs).Success? ==>
      var ys := MapOrFail(f, xs).value;
      |ys| == |xs| && forall i :: 0 <= i < |xs| ==> ys[i] == f(xs[i]).value
    decreases |xs|
  {
    if xs != [] {
      var prefix := xs[..|xs| - 1];
      MapPointwise(f, prefix);
      assert forall i :: 0 <= i < |prefix| ==> prefix[i] == xs[i];
    }
  }

  /** One more element of the map: its result is appended, or its error ends the map. */
  lemma MapStep<A, B>(f: A -> Result<B, string>, xs: seq<A>, i: nat, done: seq<B>)
    requires i < |xs| && MapOrFail(f, xs[..i]) == Success(done)
    ensures f(xs[i]).Success? ==> MapOrFail(f, xs[..i + 1]) == Success(done + [f(xs[i]).value])
    ensures f(xs[i]).Failure? ==> MapOrFail(f, xs) == Failure(f(xs[i]).error)
  {
    assert xs[..i + 1][..i] == xs[..i];
    if f(xs[i]).Failure? {
      MapStops(f, xs, i + 1);
    }
  }

  /** The first element that throws decides the error. */
  lemma MapFirstError<A, B>(f: A -> Result<B, string>, xs: seq<A>, k: nat)
    requires k < |xs| && f(xs[k]).Failure?
    requires forall i :: 0 <= i < k ==> f(xs[i]).Success?
    ensures MapOrFail(f, xs) == Failure(f(xs[k]).error)
  {
    var before := xs[..k];
    assert xs[..k + 1][..k] == before;
    MapPointwise(f, before);
    MapStops(f, xs, k + 1);
  }

  /**
   * `generateControllers` yields one entry per distinct (entity, group)
   * pair, in order, or the TypeError of the first pair whose entry throws.
   */
  lemma ControllersPointwise(h: Herbarium, controller: Option<Handler>)
    ensures var pairs := FindEntitiesAndGroups(h.usecases);
      var handler := controller.GetOr(DefaultController);
      var r := Controllers(h, controller);
      && (r.Success? <==> forall i :: 0 <= i < |pairs| ==> InfoOf(h, handler, pairs[i]).Success?)
      && (r.Success? ==> |r.value| == |pairs| && forall i :: 0 <= i < |pairs| ==> r.value[i] == InfoOf(h, handler, pairs[i]).value)
      && (forall k :: 0 <= k < |pairs| && InfoOf(h, handler, pairs[k]).Failure? ==>
            (forall i :: 0 <= i < k ==> InfoOf(h, handler, pairs[i]).Success?) ==>
            r == Failure(InfoOf(h, handler, pairs[k]).error))
  {
    var pairs := FindEntitiesAndGroups(h.usecases);
    var handler := controller.GetOr(DefaultController);
    var f := (pair: Pair) => InfoOf(h, handler, pair);
    MapPointwise(f, pairs);
    forall k | 0 <= k < |pairs| && InfoOf(h, handler, pairs[k]).Failure? &&
        (forall i :: 0 <= i < k ==> InfoOf(h, handler, pairs[i]).Success?)
      ensures Controllers(h, controller) == Failure(InfoOf(h, handler, pairs[k]).error)
    {
      MapFirstError(f, pairs, k);
    }
  }

  /** The callback of `entities.map`: the entry of one (entity, group) pair. */
  method BuildEntry(h: Herbarium, controller: Handler, pair: Pair) returns (r: Result<Entries<Info>, string>)
    ensures r == InfoOf(h, controller, pair)
  {
    var resolved := ResolveEntity(h, pair.0);
    if resolved.Failure? {
      return Failure(resolved.error);
    }
    var entity := resolved.value;
    var resourceId := FirstIdField(entity.schema);
    if resourceId.Failure? {
      return Failure(resourceId.error);
    }
    var initial := InitialInfo(h, controller, pair, entity, IdName(resourceId.value));
    InitialDistinct(h, controller, pair, entity, IdName(resourceId.value));
    var info := DropUndefined(initial);
    return Success(info);
  }

  /** `generateControllers({ herbarium, controller })` */
  method GenerateControllers(h: Herbarium, controller: Option<Handler>) returns (r: Result<seq<Entries<Info>>, string>)
    ensures r == Controllers(h, controller)
  {
    var handler := controller.GetOr(DefaultController);
    ghost var f := (pair: Pair) => InfoOf(h, handler, pair);
    var pairs := FindEntitiesAndGroups(h.usecases);
    var out: seq<Entries<Info>> := [];
    var i := 0;
    while i < |pairs|
      invariant 0 <= i <= |pairs|
      invariant MapOrFail(f, pairs[..i]) == Success(out)
    {
      var entry := BuildEntry(h, handler, pairs[i]);
      MapStep(f, pairs, i, out);
      if entry.Failure? {
        return Failure(entry.error);
      }
      out := out + [entry.value];
      i := i + 1;
    }
    assert pairs[..|pairs|] == pairs;
    r := Success(out);
  }

  /** The value an entry holds for a CRUD slot: the first use case of the operation, if any. */
  function SlotEntry(h: Herbarium, controller: Handler, entity: EntityRef, op: string, id: Option<string>): (r: Option<Info>)
    ensures r.Some? <==> exists i :: 0 <= i < |h.usecases| && Matches(h.usecases[i], entity, op)
    ensures r.Some? ==> r.value.SlotInfo? && r.value.slot.controller == controller && r.value.slot.id == id
    ensures r.Some? ==>
      exists i :: 0 <= i < |h.usecases| && Matches(h.usecases[i], entity, op) &&
        (forall j :: 0 <= j < i ==> !Matches(h.usecases[j], entity, op)) &&
        r.value.slot.usecase == h.usecases[i].id && r.value.slot.rest == h.usecases[i].rest
  {
    match FindFirst(h.usecases, entity, op)
    case None => None
    case Some(uc) => Some(SlotInfo(Slot(uc.id, controller, uc.rest, id)))
  }

  /** What the literal holds under each of its keys. */
  lemma InitialGet(h: Herbarium, controller: Handler, pair: Pair, entity: EntityDesc, idName: string, k: string)
    ensures var info := InitialInfo(h, controller, pair, entity, idName);
      Get(info, k) ==
        if k == "entity" then Some(EntityInfo(entity))
        else if k == "name" then Some(if pair.1.Some? then NameInfo(pair.1.value) else Undef)
        else if k == "getAll" then Some(SlotOf(h, controller, pair.0, CrudReadAll, None))
        else if k == "getById" then Some(SlotOf(h, controller, pair.0, CrudRead, Some(idName)))
        else if k == "post" then Some(SlotOf(h, controller, pair.0, CrudCreate, None))
        else if k == "put" then Some(SlotOf(h, controller, pair.0, CrudUpdate, None))
        else if k == "delete" then Some(SlotOf(h, controller, pair.0, CrudDelete, None))
        else None
  {
    var info := InitialInfo(h, controller, pair, entity, idName);
    var t6 := [info[6]];
    var t5 := [info[5]] + t6;
    var t4 := [info[4]] + t5;
    var t3 := [info[3]] + t4;
    var t2 := [info[2]] + t3;
    var t1 := [info[1]] + t2;
    assert info == [info[0]] + t1;
    GetCons(info[6], [], k);
    assert t6 == [info[6]] + [];
    GetCons(info[5], t6, k);
    GetCons(info[4], t5, k);
    GetCons(info[3], t4, k);
    GetCons(info[2], t3, k);
    GetCons(info[1], t2, k);
    GetCons(info[0], t1, k);
  }

  /**
   * A built entry holds the entity, the group as `name` when there is one,
   * and one slot for each CRUD operation the entity has a use case for,
   * `getById` carrying the name of the entity's first ID field or `'id'`;
   * it holds nothing else.
   */
  lemma EntryContents(h: Herbarium, controller: Handler, pair: Pair, k: string)
    requires InfoOf(h, controller, pair).Success?
    ensures var info := InfoOf(h, controller, pair).value;
      var e := ResolveEntity(h, pair.0).value;
      var id := IdName(FirstIdField(e.schema).value);
      Get(info, k) ==
        if k == "entity" then Some(EntityInfo(e))
        else if k == "name" then (if pair.1.Some? then Some(NameInfo(pair.1.value)) else None)
        else if k == "getAll" then SlotEntry(h, controller, pair.0, CrudReadAll, None)
        else if k == "getById" then SlotEntry(h, controller, pair.0, CrudRead, Some(id))
        else if k == "post" then SlotEntry(h, controller, pair.0, CrudCreate, None)
        else if k == "put" then SlotEntry(h, controller, pair.0, CrudUpdate, None)
        else if k == "delete" then SlotEntry(h, controller, pair.0, CrudDelete, None)
        else None
  {
    var e := ResolveEntity(h, pair.0).value;
    var id := IdName(FirstIdField(e.schema).value);
    var initial := InitialInfo(h, controller, pair, e, id);
    assert InfoOf(h, controller, pair).value == Defined(initial);
    InitialDistinct(h, controller, pair, e, id);
    DefinedGet(initial, k);
    InitialGet(h, controller, pair, e, id, k);
  }
}
