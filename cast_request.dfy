/**
 * The current `castRequest` helper: the legacy cast reduced to the Array
 * pass-through, Number and String conversions and entity instances. Every
 * other type, array types included, yields `undefined`, so it never throws.
 */
module CastRequest {
  import opened Wrappers
  import opened Js
  import opened Meta
  import LegacyCastRequest

  /** The constructors the current cast converts to. */
  predicate Converts(t: TypeDesc) {
    t.Entity? || (t.Prim? && t.name in ["Array", "Number", "String"])
  }

  /** `castRequest(value, type)` */
  function Cast(rt: Runtime, value: Value, t: TypeDesc): (r: Value)
    ensures value.Undefined? || !Converts(t) ==> r == Undefined
    ensures t == Prim("Array") ==> r == value
  {
    if value.Undefined? then Undefined
    else if t == Prim("Array") then value
    else if t == Prim("Number") then Num(rt.toNumber(value))
    else if t == Prim("String") then Str(rt.toStr(value))
    else if t.Entity? then Instance(t.entity.name, value)
    else Undefined
  }

  /**
   * The current cast agrees with the legacy one on every type it converts;
   * on Boolean, Date and array types, where the legacy cast converts or
   * throws, it yields `undefined`.
   */
  lemma AgreesWithLegacy(rt: Runtime, value: Value, t: TypeDesc)
    ensures Converts(t) ==> LegacyCastRequest.Cast(rt, value, t) == Success(Cast(rt, value, t))
    ensures !Converts(t) ==> Cast(rt, value, t) == Undefined
    ensures !value.Undefined? && (t == Prim("Boolean") || t == Prim("Date") || t.ArrayOf?) ==>
      LegacyCastRequest.Cast(rt, value, t) != Success(Undefined)
  {
    if !value.Undefined? && t.ArrayOf? && value.Arr? {
      var r := LegacyCastRequest.Cast(rt, value, t);
      assert r.Success? ==> r.value.Arr?;
    }
  }
}
