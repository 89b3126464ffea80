/**
 * The JavaScript values the system handles: request values, the results of
 * the runtime's conversions, and plain objects, which keep their keys in
 * insertion order.
 */
module Js {
  import opened Wrappers

  /** A JavaScript number. */
  datatype Number = Finite(r: real) | NaN | Infinity(negative: bool)

  /** A JavaScript value as it reaches or leaves the request marshalling code. */
  datatype Value =
    | Undefined
    | Null
    | Bool(b: bool)
    | Num(n: Number)
    | Str(s: string)
    | Arr(items: seq<Value>)
    | Obj(props: Entries<Value>)
    | DateObj(time: Number)                 // `new Date(v)`: a Date holding a time value
    | Instance(entity: string, source: Value)    // `Object.assign(new E(), v)`

  /** JavaScript truthiness: `if (v)`, `v || w`. */
  predicate Truthy(v: Value) {
    match v
    case Undefined => false
    case Null => false
    case Bool(b) => b
    case Num(n) => !(n.NaN? || n == Finite(0.0))
    case Str(s) => s != ""
    case _ => true
  }

  /** The express request sources a handler reads. An absent source is `{}`. */
  datatype HttpRequest = HttpRequest(body: Entries<Value>, query: Entries<Value>, params: Entries<Value>)

  /** `req[name]` for the three sources; no other request property is modelled. */
  function Source(req: HttpRequest, name: string): Option<Entries<Value>> {
    if name == "body" then Some(req.body)
    else if name == "query" then Some(req.query)
    else if name == "params" then Some(req.params)
    else None
  }

  // ---------------------------------------------------------------------------
  // Strings: letter case, on ASCII letters only
  // ---------------------------------------------------------------------------

  function UpperChar(c: char): char {
    if 'a' <= c <= 'z' then (c as int - 32) as char else c
  }

  function LowerChar(c: char): char {
    if 'A' <= c <= 'Z' then (c as int + 32) as char else c
  }

  /** `String.prototype.toUpperCase` */
  function ToUpper(s: string): (r: string)
    ensures |r| == |s|
    ensures forall i :: 0 <= i < |s| ==> r[i] == UpperChar(s[i])
  {
    seq(|s|, i requires 0 <= i < |s| => UpperChar(s[i]))
  }

  /** `String.prototype.toLowerCase` */
  function ToLower(s: string): (r: string)
    ensures |r| == |s|
    ensures forall i :: 0 <= i < |s| ==> r[i] == LowerChar(s[i])
  {
    seq(|s|, i requires 0 <= i < |s| => LowerChar(s[i]))
  }

  // ---------------------------------------------------------------------------
  // Plain objects: insertion-ordered key/value lists
  // ---------------------------------------------------------------------------

  type Entries<V> = seq<(string, V)>

  /** `Object.keys(e)` */
  function Keys<V>(e: Entries<V>): (ks: seq<string>)
    ensures |ks| == |e|
    ensures forall i :: 0 <= i < |e| ==> ks[i] == e[i].0
  {
    if e == [] then [] else [e[0].0] + Keys(e[1..])
  }

  /** A JavaScript object never holds the same key twice. */
  predicate DistinctKeys<V>(e: Entries<V>) {
    forall i, j :: 0 <= i < j < |e| ==> e[i].0 != e[j].0
  }

  /** `e[k]`, `None` standing for a missing property. */
  function Get<V>(e: Entries<V>, k: string): (r: Option<V>)
    ensures r.Some? <==> k in Keys(e)
  {
    if e == [] then None else if e[0].0 == k then Some(e[0].1) else Get(e[1..], k)
  }

  /** `e[k]` on an object of values: a missing property reads as `undefined`. */
  function ValueAt(e: Entries<Value>, k: string): Value {
    Get(e, k).GetOr(Undefined)
  }

  /** `e[k] = v`: an existing key keeps its position, a new key goes last. */
  function Put<V>(e: Entries<V>, k: string, v: V): (r: Entries<V>)
    ensures Keys(r) == if k in Keys(e) then Keys(e) else Keys(e) + [k]
    ensures Get(r, k) == Some(v)
    ensures forall k' :: k' != k ==> Get(r, k') == Get(e, k')
  {
    if e == [] then [(k, v)]
    else
      Cons(e[0], e[1..]);
      assert e == [e[0]] + e[1..];
      if e[0].0 == k then
        Cons((k, v), e[1..]);
        [(k, v)] + e[1..]
      else
        var rest := Put(e[1..], k, v);
        Cons(e[0], rest);
        assert (k in Keys(e)) == (k in Keys(e[1..]));
        ConcatAssoc([e[0].0], Keys(e[1..]), [k]);
        [e[0]] + rest
  }

  /** The keys of an object whose first entry is `x`, and what it holds under each. */
  lemma Cons<V>(x: (string, V), rest: Entries<V>)
    ensures Keys([x] + rest) == [x.0] + Keys(rest)
    ensures forall k :: Get([x] + rest, k) == if x.0 == k then Some(x.1) else Get(rest, k)
  {
    assert ([x] + rest)[1..] == rest;
  }

  /** `{...e, ...src}`: the properties of `src` assigned in order onto `e`. */
  function PutAll<V>(e: Entries<V>, src: Entries<V>): Entries<V>
    decreases |src|
  {
    if src == [] then e else PutAll(Put(e, src[0].0, src[0].1), src[1..])
  }

  /** `Object.fromEntries(src)` */
  function FromEntries<V>(src: Entries<V>): Entries<V> {
    PutAll([], src)
  }

  /** The value of the last occurrence of `k` in `src`. */
  function GetLast<V>(src: Entries<V>, k: string): (r: Option<V>)
    ensures r.Some? <==> k in Keys(src)
  {
    if src == [] then None
    else
      var later := GetLast(src[1..], k);
      if later.Some? then later else if src[0].0 == k then Some(src[0].1) else None
  }

  /** Spreading lets the last assignment of a key win. */
  lemma {:induction false} PutAllGet<V>(e: Entries<V>, src: Entries<V>, k: string)
    ensures Get(PutAll(e, src), k) == if k in Keys(src) then GetLast(src, k) else Get(e, k)
    decreases |src|
  {
    if src != [] {
      PutAllGet(Put(e, src[0].0, src[0].1), src[1..], k);
    }
  }

  /** In a well-formed object the last occurrence of a key is its only one. */
  /** `Object.fromEntries(src)` holds under each key the value of its last entry. */
  lemma FromEntriesGet<V>(src: Entries<V>)
    ensures forall k :: Get(FromEntries(src), k) == GetLast(src, k)
  {
    forall k {
      PutAllGet([], src, k);
    }
  }

  lemma {:induction false} GetLastDistinct<V>(src: Entries<V>, k: string)
    requires DistinctKeys(src)
    ensures GetLast(src, k) == Get(src, k)
  {
    if src != [] {
      assert DistinctKeys(src[1..]);
      GetLastDistinct(src[1..], k);
    }
  }

  /** `delete e[k]` */
  function Delete<V>(e: Entries<V>, k: string): (r: Entries<V>)
    ensures k !in Keys(r)
    ensures k !in Keys(e) ==> r == e
  {
    if e == [] then []
    else
      var rest := Delete(e[1..], k);
      assert Keys(e) == [e[0].0] + Keys(e[1..]);
      assert e == [e[0]] + e[1..];
      if e[0].0 == k then rest
      else
        var r := [e[0]] + rest;
        assert r[1..] == rest;
        r
  }

  /** `delete` keeps every entry under another key, and only those. */
  lemma {:induction false} DeleteKeeps<V>(e: Entries<V>, k: string)
    ensures forall i :: 0 <= i < |Delete(e, k)| ==> Delete(e, k)[i] in e && Delete(e, k)[i].0 != k
    ensures forall i :: 0 <= i < |e| && e[i].0 != k ==> e[i] in Delete(e, k)
  {
    if e != [] {
      DeleteKeeps(e[1..], k);
      assert e == [e[0]] + e[1..];
      forall i | 1 <= i < |e| && e[i].0 != k
        ensures e[i] in Delete(e, k)
      {
        assert e[i] == e[1..][i - 1];
      }
    }
  }

  /** Deleting from two objects laid end to end deletes from each. */
  lemma {:induction false} DeleteConcat<V>(a: Entries<V>, b: Entries<V>, k: string)
    ensures Delete(a + b, k) == Delete(a, k) + Delete(b, k)
  {
    if a != [] {
      assert (a + b)[0] == a[0] && (a + b)[1..] == a[1..] + b;
      DeleteConcat(a[1..], b, k);
    } else {
      assert a + b == b;
    }
  }

  /** Looking a key up in two objects laid end to end. */
  lemma {:induction false} GetConcat<V>(a: Entries<V>, b: Entries<V>, k: string)
    ensures Get(a + b, k) == if k in Keys(a) then Get(a, k) else Get(b, k)
  {
    if a != [] {
      assert (a + b)[1..] == a[1..] + b;
      assert Keys(a) == [a[0].0] + Keys(a[1..]);
      GetConcat(a[1..], b, k);
    } else {
      assert a + b == b;
    }
  }

  /** Concatenation regroups freely. */
  lemma ConcatAssoc<T>(a: seq<T>, b: seq<T>, c: seq<T>)
    ensures (a + b) + c == a + (b + c)
  {
  }

  /** Looking a key up in an object whose first entry is `x`. */
  lemma GetCons<V>(x: (string, V), rest: Entries<V>, k: string)
    ensures Get([x] + rest, k) == if x.0 == k then Some(x.1) else Get(rest, k)
  {
    assert ([x] + rest)[1..] == rest;
  }

  /** Looking a key up in an object extended by one entry. */
  lemma {:induction false} GetAppend<V>(a: Entries<V>, f: string, v: V, k: string)
    ensures Get(a + [(f, v)], k) == if k in Keys(a) then Get(a, k) else if k == f then Some(v) else None
  {
    if a != [] {
      assert (a + [(f, v)])[1..] == a[1..] + [(f, v)];
      assert Keys(a) == [a[0].0] + Keys(a[1..]);
      GetAppend(a[1..], f, v, k);
    }
  }

  /** In a well-formed object, looking a key up splits at the last entry. */
  lemma GetLastEntry<V>(e: Entries<V>, k: string)
    requires DistinctKeys(e) && e != []
    ensures var n := |e| - 1;
      && DistinctKeys(e[..n])
      && Get(e[..n], e[n].0) == None
      && Get(e, k) == if k == e[n].0 then Some(e[n].1) else Get(e[..n], k)
  {
    var n := |e| - 1;
    var prefix := e[..n];
    assert e == prefix + [(e[n].0, e[n].1)];
    GetAppend(prefix, e[n].0, e[n].1, k);
    assert e[n].0 !in Keys(prefix) by {
      forall i | 0 <= i < |prefix| ensures Keys(prefix)[i] != e[n].0 {
        assert prefix[i] == e[i];
      }
    }
  }

  /** Assigning a fresh key appends it. */
  lemma {:induction false} PutFresh<V>(e: Entries<V>, k: string, v: V)
    requires k !in Keys(e)
    ensures Put(e, k, v) == e + [(k, v)]
  {
    if e != [] {
      assert Keys(e) == [e[0].0] + Keys(e[1..]);
      assert e[0].0 != k;
      PutFresh(e[1..], k, v);
      PutPast(e, k, v);
      ConcatAssoc([e[0]], e[1..], [(k, v)]);
      assert e == [e[0]] + e[1..];
    }
  }

  /** Assigning a key the first entry does not hold leaves that entry first. */
  lemma PutPast<V>(e: Entries<V>, k: string, v: V)
    requires e != [] && e[0].0 != k
    ensures Put(e, k, v) == [e[0]] + Put(e[1..], k, v)
  {
  }

  /** Spreading the rest of a well-formed object onto its own prefix rebuilds it. */
  lemma {:induction false} PutAllFresh<V>(whole: Entries<V>, n: nat)
    requires DistinctKeys(whole) && n <= |whole|
    ensures PutAll(whole[..n], whole[n..]) == whole
    decreases |whole| - n
  {
    if n == |whole| {
      assert whole[..n] == whole;
    } else {
      var src := whole[n..];
      assert src[0] == whole[n] && src[1..] == whole[n + 1..];
      assert whole[n].0 !in Keys(whole[..n]) by {
        forall i | 0 <= i < n
          ensures Keys(whole[..n])[i] != whole[n].0
        {
          assert whole[..n][i] == whole[i];
        }
      }
      PutFresh(whole[..n], whole[n].0, whole[n].1);
      assert whole[..n] + [whole[n]] == whole[..n + 1];
      assert PutAll(whole[..n], src) == PutAll(whole[..n + 1], whole[n + 1..]);
      PutAllFresh(whole, n + 1);
    }
  }

  /** `Object.fromEntries` of a well-formed object rebuilds it. */
  lemma FromEntriesDistinct<V>(src: Entries<V>)
    requires DistinctKeys(src)
    ensures FromEntries(src) == src
  {
    assert src[..0] == [] && src[0..] == src;
    PutAllFresh(src, 0);
  }
}
