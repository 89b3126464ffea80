/**
 * What both generations of `generateRoutes` share: the five CRUD slots of a
 * route entry in registration order, the verb, path and request projection
 * of each, and the router the routes are registered on.
 */
module Routing {
  import opened Wrappers
  import opened Js
  import opened Meta

  /** The CRUD slots of an entry, declared in the order they are registered. */
  datatype SlotKind = GetAll | GetById | Post | Put | Delete

  const Kinds: seq<SlotKind> := [GetAll, GetById, Post, Put, Delete]

  /** The property of the entry holding the slot. */
  function KeyOf(k: SlotKind): string {
    match k
    case GetAll => "getAll"
    case GetById => "getById"
    case Post => "post"
    case Put => "put"
    case Delete => "delete"
  }

  /** The router method the slot registers with. */
  function VerbOf(k: SlotKind): string {
    match k
    case GetAll => "GET"
    case GetById => "GET"
    case Post => "POST"
    case Put => "PUT"
    case Delete => "DELETE"
  }

  /** The properties of `req` the slot's handler hands to the controller as the request. */
  function SourcesOf(k: SlotKind): seq<string> {
    match k
    case GetAll => ["query"]
    case GetById => ["query", "params"]
    case Post => ["body"]
    case Put => ["body", "params"]
    case Delete => ["params"]
  }

  /** The slots whose path ends in an id parameter. */
  predicate HasId(k: SlotKind) {
    k == GetById || k == Put || k == Delete
  }

  /** `${name}` in a template literal: a missing name renders as `undefined`. */
  function Render(name: Option<string>): (s: string)
    ensures name.Some? ==> s == name.value
  {
    if name.Some? then name.value else "undefined"
  }

  /** `/${name}` or `/${name}/:${id}`. */
  function PathOf(name: Option<string>, k: SlotKind, id: string): (p: string)
    ensures HasId(k) ==> p == "/" + Render(name) + "/:" + id
    ensures !HasId(k) ==> p == "/" + Render(name)
  {
    var base := "/" + Render(name);
    if HasId(k) then base + "/:" + id else base
  }

  /**
   * One call to `app.get`, `app.post`, `app.put` or `app.delete`: the verb,
   * the path, and what the registered handler captures: the request
   * properties it forwards, the use case and the controller it calls.
   */
  datatype Registration = Registration(verb: string, path: string, sources: seq<string>, usecase: Option<string>, controller: Option<Handler>)

  /** The registration a slot makes. */
  function RegistrationOf(name: Option<string>, k: SlotKind, id: string, usecase: Option<string>, controller: Option<Handler>): (r: Registration)
    ensures r.verb == VerbOf(k) && r.sources == SourcesOf(k) && r.path == PathOf(name, k, id)
    ensures r.usecase == usecase && r.controller == controller
  {
    Registration(VerbOf(k), PathOf(name, k, id), SourcesOf(k), usecase, controller)
  }

  /** The routes a run registers before it ends, and the TypeError that ended it, if any. */
  datatype Outcome = Outcome(regs: seq<Registration>, error: Option<string>)

  /** `a`, then `b` unless `a` threw. */
  function Then(a: Outcome, b: Outcome): (r: Outcome)
    ensures a.error.Some? ==> r == a
    ensures a.error.None? ==> r.regs == a.regs + b.regs && r.error == b.error
  {
    if a.error.Some? then a else Outcome(a.regs + b.regs, b.error)
  }

  /** `xs.forEach(f)` where `f` registers routes and may throw. */
  function Sequence<A>(f: A -> Outcome, xs: seq<A>): Outcome
    decreases |xs|
  {
    if xs == [] then Outcome([], None)
    else Then(Sequence(f, xs[..|xs| - 1]), f(xs[|xs| - 1]))
  }

  /** One more element of the walk. */
  lemma SequenceStep<A>(f: A -> Outcome, xs: seq<A>, i: nat)
    requires i < |xs|
    ensures Sequence(f, xs[..i + 1]) == Then(Sequence(f, xs[..i]), f(xs[i]))
  {
    assert xs[..i + 1][..i] == xs[..i];
  }

  /**
   * One more element of a walk that has not thrown: the element's routes
   * are appended after those registered so far (on top of `start`), its
   * error is the walk's, and if it throws the walk ends there.
   */
  lemma SequenceAdvance<A>(f: A -> Outcome, xs: seq<A>, i: nat, start: seq<Registration>)
    requires i < |xs| && Sequence(f, xs[..i]).error.None?
    ensures (start + Sequence(f, xs[..i]).regs) + f(xs[i]).regs == start + Sequence(f, xs[..i + 1]).regs
    ensures Sequence(f, xs[..i + 1]).error == f(xs[i]).error
    ensures f(xs[i]).error.Some? ==> Sequence(f, xs) == Sequence(f, xs[..i + 1])
  {
    SequenceStep(f, xs, i);
    ConcatAssoc(start, Sequence(f, xs[..i]).regs, f(xs[i]).regs);
    if f(xs[i]).error.Some? {
      SequenceStops(f, xs, i + 1);
    }
  }

  /** A walk over one element is that element's outcome. */
  lemma SequenceOne<A>(f: A -> Outcome, xs: seq<A>)
    requires |xs| == 1
    ensures Sequence(f, xs) == f(xs[0])
  {
    assert xs[..0] == [];
  }

  /** Once an element throws, the walk registers nothing more and ends with that error. */
  lemma {:induction false} SequenceStops<A>(f: A -> Outcome, xs: seq<A>, n: nat)
    requires n <= |xs| && Sequence(f, xs[..n]).error.Some?
    ensures Sequence(f, xs) == Sequence(f, xs[..n])
    decreases |xs|
  {
    if n == |xs| {
      assert xs[..n] == xs;
    } else {
      var prefix := xs[..|xs| - 1];
      assert prefix[..n] == xs[..n];
      SequenceStops(f, prefix, n);
    }
  }

  /**
   * The walk ends without error exactly when no element throws, and then
   * registers every element's routes, element by element.
   */
  lemma {:induction false} SequenceNoError<A>(f: A -> Outcome, xs: seq<A>)
    ensures Sequence(f, xs).error.None? <==> forall i :: 0 <= i < |xs| ==> f(xs[i]).error.None?
    ensures Sequence(f, xs).error.None? ==> Sequence(f, xs).regs == Flatten(f, xs)
    decreases |xs|
  {
    if xs != [] {
      var prefix := xs[..|xs| - 1];
      SequenceNoError(f, prefix);
      assert forall i :: 0 <= i < |prefix| ==> prefix[i] == xs[i];
    }
  }

  /** A walk whose elements register nothing registers nothing, whether or not one throws. */
  lemma {:induction false} SequenceSilent<A>(f: A -> Outcome, xs: seq<A>)
    requires forall i :: 0 <= i < |xs| ==> f(xs[i]).regs == []
    ensures Sequence(f, xs).regs == []
    decreases |xs|
  {
    if xs != [] {
      var prefix := xs[..|xs| - 1];
      assert forall i :: 0 <= i < |prefix| ==> prefix[i] == xs[i];
      SequenceSilent(f, prefix);
    }
  }

  /** The routes of every element, concatenated in order. */
  function Flatten<A>(f: A -> Outcome, xs: seq<A>): seq<Registration>
    decreases |xs|
  {
    if xs == [] then [] else Flatten(f, xs[..|xs| - 1]) + f(xs[|xs| - 1]).regs
  }

  /** An optional value as a list of zero or one elements. */
  function AsSeq<B>(o: Option<B>): seq<B> {
    if o.Some? then [o.value] else []
  }

  /** Two walks, element by element registering the same routes, register the same routes. */
  lemma {:induction false} FlattenAligned<A, B>(f: A -> Outcome, xs: seq<A>, g: B -> Outcome, ys: seq<B>)
    requires |xs| == |ys|
    requires forall i :: 0 <= i < |xs| ==> f(xs[i]).regs == g(ys[i]).regs
    ensures Flatten(f, xs) == Flatten(g, ys)
    decreases |xs|
  {
    if xs != [] {
      var xp, yp := xs[..|xs| - 1], ys[..|ys| - 1];
      assert forall i :: 0 <= i < |xp| ==> xp[i] == xs[i] && yp[i] == ys[i];
      FlattenAligned(f, xp, g, yp);
    }
  }

  /** The values `g` yields for the elements it yields one for, in order. */
  function Collect<A, B>(g: A -> Option<B>, xs: seq<A>): seq<B>
    decreases |xs|
  {
    if xs == [] then []
    else Collect(g, xs[..|xs| - 1]) + AsSeq(g(xs[|xs| - 1]))
  }

  /** One more element of a collection. */
  lemma CollectStep<A, B>(g: A -> Option<B>, xs: seq<A>, i: nat)
    requires i < |xs|
    ensures Collect(g, xs[..i + 1]) == Collect(g, xs[..i]) + AsSeq(g(xs[i]))
  {
    assert xs[..i + 1][..i] == xs[..i];
  }

  /** Collections under two functions that agree on every element are the same. */
  lemma {:induction false} CollectSame<A, B>(g: A -> Option<B>, g': A -> Option<B>, xs: seq<A>)
    requires forall i :: 0 <= i < |xs| ==> g(xs[i]) == g'(xs[i])
    ensures Collect(g, xs) == Collect(g', xs)
    decreases |xs|
  {
    if xs != [] {
      var prefix := xs[..|xs| - 1];
      assert forall i :: 0 <= i < |prefix| ==> prefix[i] == xs[i];
      CollectSame(g, g', prefix);
    }
  }

  /** Collecting over five elements, spelt out. */
  lemma CollectFive<A, B>(g: A -> Option<B>, xs: seq<A>)
    requires |xs| == 5
    ensures Collect(g, xs) == AsSeq(g(xs[0])) + AsSeq(g(xs[1])) + AsSeq(g(xs[2])) + AsSeq(g(xs[3])) + AsSeq(g(xs[4]))
  {
    var a0, a1, a2, a3, a4 := AsSeq(g(xs[0])), AsSeq(g(xs[1])), AsSeq(g(xs[2])), AsSeq(g(xs[3])), AsSeq(g(xs[4]));
    assert xs[..0] == [];
    CollectStep(g, xs, 0);
    assert Collect(g, xs[..1]) == a0 by {
      assert [] + a0 == a0;
    }
    CollectStep(g, xs, 1);
    CollectStep(g, xs, 2);
    CollectStep(g, xs, 3);
    CollectStep(g, xs, 4);
    assert Collect(g, xs[..5]) == a0 + a1 + a2 + a3 + a4;
    assert xs[..5] == xs;
  }

  /** Collecting over the five slots, spelt out. */
  lemma CollectKinds<B>(g: SlotKind -> Option<B>)
    ensures Collect(g, Kinds) == AsSeq(g(GetAll)) + AsSeq(g(GetById)) + AsSeq(g(Post)) + AsSeq(g(Put)) + AsSeq(g(Delete))
  {
    CollectFive(g, Kinds);
  }

  /**
   * When each element registers one route or none, the walk registers, in
   * order, the routes of the elements that register one.
   */
  lemma {:induction false} FlattenCollect<A>(f: A -> Outcome, g: A -> Option<Registration>, xs: seq<A>)
    requires forall i :: 0 <= i < |xs| ==> f(xs[i]).regs == if g(xs[i]).Some? then [g(xs[i]).value] else []
    ensures Flatten(f, xs) == Collect(g, xs)
    decreases |xs|
  {
    if xs != [] {
      var prefix := xs[..|xs| - 1];
      assert forall i :: 0 <= i < |prefix| ==> prefix[i] == xs[i];
      FlattenCollect(f, g, prefix);
    }
  }

  /** The router (an express app or `Router`): the routes registered on it, in order. */
  class Router {
    var routes: seq<Registration>

    constructor()
      ensures routes == []
    {
      routes := [];
    }

    /** `app.get(path, handler)` and the like. */
    method Register(r: Registration)
      modifies this
      ensures routes == old(routes) + [r]
    {
      routes := routes + [r];
    }
  }
}
