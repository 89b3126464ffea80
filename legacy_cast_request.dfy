/**
 * The legacy `castRequest` helper: a request value converted according to a
 * type descriptor of a use case's request schema. Array types are mapped
 * element by element; `value.map` on a value that is not an array throws.
 */
module LegacyCastRequest {
  import opened Wrappers
  import opened Js
  import opened Meta

  const MapOfNull := "TypeError: Cannot read properties of null (reading 'map')"
  const MapNotAFunction := "TypeError: value.map is not a function"

  /** The two errors `value.map(...)` throws on a value without a `map` method. */
  predicate IsMapError(e: string) {
    e == MapOfNull || e == MapNotAFunction
  }

  /**
   * `castRequest(value, type)`. A thrown TypeError is a `Failure`; a type
   * matching no branch yields `undefined`.
   */
  function Cast(rt: Runtime, value: Value, t: TypeDesc): (r: Result<Value, string>)
    ensures value.Undefined? ==> r == Success(Undefined)
    ensures r.Failure? ==> t.ArrayOf? && IsMapError(r.error)
    ensures t.ArrayOf? && !value.Undefined? && !value.Arr? ==> r.Failure?
    ensures t.ArrayOf? && value.Arr? && r.Success? ==> r.value.Arr? && |r.value.items| == |value.items|
    ensures t.Prim? && t.name !in ["Array", "Number", "String", "Boolean", "Date"] ==> r == Success(Undefined)
    ensures t.Shape? ==> r == Success(Undefined)
    decreases t, 0
  {
    if value.Undefined? then Success(Undefined)
    else
      match t
      case ArrayOf(elem) =>
        if value.Arr? then
          var items :- CastAll(rt, value.items, elem);
          Success(Arr(items))
        else if value.Null? then Failure(MapOfNull)
        else Failure(MapNotAFunction)
      case Prim(name) =>
        if name == "Array" then Success(value)
        else if name == "Number" then Success(Num(rt.toNumber(value)))
        else if name == "String" then Success(Str(rt.toStr(value)))
        else if name == "Boolean" then Success(Bool(Truthy(value)))
        else if name == "Date" then Success(DateObj(rt.toTime(value)))
        else Success(Undefined)
      case Entity(e) => Success(Instance(e.name, value))
      case Shape(_) => Success(Undefined)
  }

  /** `items.map(item => castRequest(item, elem))`: the first thrown error stops the map. */
  function CastAll(rt: Runtime, items: seq<Value>, elem: TypeDesc): (r: Result<seq<Value>, string>)
    ensures r.Success? ==> |r.value| == |items|
    ensures r.Failure? ==> elem.ArrayOf? && IsMapError(r.error)
    decreases elem, 1, |items|
  {
    if items == [] then Success([])
    else
      var head :- Cast(rt, items[0], elem);
      var tail :- CastAll(rt, items[1..], elem);
      Success([head] + tail)
  }

  /**
   * Mapping over an array casts every element on its own: the map succeeds
   * exactly when every element's cast does, and then holds those casts in
   * order.
   */
  lemma {:induction false} CastAllPointwise(rt: Runtime, items: seq<Value>, elem: TypeDesc)
    ensures CastAll(rt, items, elem).Success? <==> forall i :: 0 <= i < |items| ==> Cast(rt, items[i], elem).Success?
    ensures CastAll(rt, items, elem).Success? ==>
      forall i :: 0 <= i < |items| ==> CastAll(rt, items, elem).value[i] == Cast(rt, items[i], elem).value
  {
    if items != [] {
      CastAllPointwise(rt, items[1..], elem);
      assert forall i :: 1 <= i < |items| ==> items[i] == items[1..][i - 1];
    }
  }

  /** An array-of-T type maps each element against T; a non-array value throws. */
  lemma CastArrayOf(rt: Runtime, value: Value, elem: TypeDesc)
    requires value.Arr?
    ensures Cast(rt, value, ArrayOf(elem)).Success? <==>
      forall i :: 0 <= i < |value.items| ==> Cast(rt, value.items[i], elem).Success?
    ensures Cast(rt, value, ArrayOf(elem)).Success? ==>
      var out := Cast(rt, value, ArrayOf(elem)).value;
      out.Arr? && |out.items| == |value.items| &&
      forall i :: 0 <= i < |value.items| ==> out.items[i] == Cast(rt, value.items[i], elem).value
  {
    CastAllPointwise(rt, value.items, elem);
  }

  /**
   * The conversions of the scalar constructors, the Array pass-through and
   * the entity instance, for any defined value.
   */
  lemma CastScalars(rt: Runtime, value: Value, e: EntityDesc)
    requires !value.Undefined?
    ensures Cast(rt, value, Prim("Array")) == Success(value)
    ensures Cast(rt, value, Prim("Number")) == Success(Num(rt.toNumber(value)))
    ensures Cast(rt, value, Prim("String")) == Success(Str(rt.toStr(value)))
    ensures Cast(rt, value, Prim("Boolean")) == Success(Bool(Truthy(value)))
    ensures Cast(rt, value, Prim("Date")) == Success(DateObj(rt.toTime(value)))
    ensures Cast(rt, value, Entity(e)) == Success(Instance(e.name, value))
  {
  }
}
