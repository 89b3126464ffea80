/**
 * The endpoint builder of one version: explicit endpoints made with `for`,
 * use cases to skip, and a default endpoint for every other use case that
 * has none of this version yet.
 */
module EndpointBuilders {
  import opened Wrappers
  import opened Js
  import opened Meta
  import opened Endpoints

  /** An endpoint node of the registry, linked to the use case it serves. */
  datatype EndpointNode = EndpointNode(id: string, endpoint: Endpoint, usecaseID: string)

  /** The states of the nodes' endpoints, node by node. */
  ghost function States(nodes: seq<EndpointNode>): (s: seq<EndpointState>)
    reads set n | n in nodes :: n.endpoint
    ensures |s| == |nodes|
    decreases |nodes|
  {
    if nodes == [] then [] else States(nodes[..|nodes| - 1]) + [nodes[|nodes| - 1].endpoint.State()]
  }

  /** The `j`-th state is that of the `j`-th node's endpoint. */
  lemma {:induction false} StatesAt(nodes: seq<EndpointNode>, j: nat)
    requires j < |nodes|
    ensures States(nodes)[j] == nodes[j].endpoint.State()
    decreases |nodes|
  {
    if j < |nodes| - 1 {
      StatesAt(nodes[..|nodes| - 1], j);
    }
  }

  /** Appending a node appends its endpoint's state. */
  lemma StatesAppend(nodes: seq<EndpointNode>, n: EndpointNode)
    ensures States(nodes + [n]) == States(nodes) + [n.endpoint.State()]
  {
    assert (nodes + [n])[..|nodes|] == nodes;
  }

  /**
   * The part of the herbarium registry the builder works on: the use case
   * nodes in registration order and the endpoint nodes added so far.
   */
  class Herbarium {
    var usecases: seq<UseCase>
    var endpoints: seq<EndpointNode>

    constructor (usecases: seq<UseCase>)
      ensures this.usecases == usecases && endpoints == []
    {
      this.usecases := usecases;
      endpoints := [];
    }
  }

  /** `herbarium.nodes.get(id)` restricted to use cases: the first one registered under `id`. */
  function FindUseCase(usecases: seq<UseCase>, id: string): (r: Option<UseCase>)
    ensures r.Some? ==> r.value in usecases && r.value.id == id
    ensures r.None? <==> forall uc :: uc in usecases ==> uc.id != id
  {
    if usecases == [] then None
    else if usecases[0].id == id then Some(usecases[0])
    else FindUseCase(usecases[1..], id)
  }

  /** The ids of the use cases that have an endpoint of `version` linked to them. */
  function Linked(nodes: seq<EndpointNode>, version: string): set<string> {
    if nodes == [] then {}
    else
      var last := nodes[|nodes| - 1];
      Linked(nodes[..|nodes| - 1], version) + (if last.endpoint.version == version then {last.usecaseID} else {})
  }

  lemma LinkedAppend(nodes: seq<EndpointNode>, n: EndpointNode, version: string)
    ensures Linked(nodes + [n], version) == Linked(nodes, version) + (if n.endpoint.version == version then {n.usecaseID} else {})
  {
    assert (nodes + [n])[..|nodes|] == nodes;
  }

  /** A use case is linked exactly when some node of the version names it. */
  lemma {:induction false} LinkedMember(nodes: seq<EndpointNode>, id: string, version: string)
    ensures id in Linked(nodes, version) <==> exists n :: n in nodes && n.usecaseID == id && n.endpoint.version == version
  {
    if nodes != [] {
      var init := nodes[..|nodes| - 1];
      LinkedMember(init, id, version);
      assert nodes == init + [nodes[|nodes| - 1]];
      assert forall n :: n in nodes <==> n in init || n == nodes[|nodes| - 1];
    }
  }

  /**
   * The use cases `build` gives a default endpoint, in order: those not
   * ignored and with no endpoint of the version, counting the ones added
   * on the way.
   */
  function Pending(ucs: seq<UseCase>, linked: set<string>, ignored: seq<string>): (r: seq<UseCase>)
    ensures forall uc :: uc in r ==> uc in ucs && uc.id !in ignored && uc.id !in linked
  {
    if ucs == [] then []
    else if ucs[0].id in ignored || ucs[0].id in linked then Pending(ucs[1..], linked, ignored)
    else [ucs[0]] + Pending(ucs[1..], linked + {ucs[0].id}, ignored)
  }

  lemma PendingStep(ucs: seq<UseCase>, i: nat, linked: set<string>, ignored: seq<string>)
    requires i < |ucs|
    ensures ucs[i].id in ignored || ucs[i].id in linked ==> Pending(ucs[i..], linked, ignored) == Pending(ucs[i + 1..], linked, ignored)
    ensures ucs[i].id !in ignored && ucs[i].id !in linked ==>
      Pending(ucs[i..], linked, ignored) == [ucs[i]] + Pending(ucs[i + 1..], linked + {ucs[i].id}, ignored)
  {
    assert ucs[i..][0] == ucs[i] && ucs[i..][1..] == ucs[i + 1..];
  }

  /** Nothing is pending once every use case is ignored or has an endpoint of the version. */
  lemma {:induction false} NothingPending(ucs: seq<UseCase>, linked: set<string>, ignored: seq<string>)
    requires forall uc :: uc in ucs ==> uc.id in ignored || uc.id in linked
    ensures Pending(ucs, linked, ignored) == []
  {
    if ucs != [] {
      assert ucs[0] in ucs;
      assert forall uc :: uc in ucs[1..] ==> uc in ucs;
      NothingPending(ucs[1..], linked, ignored);
    }
  }

  /** The endpoint `build` registers for a use case: `for` without handlers, then `use` with the builder's. */
  function Default(uc: UseCase, version: string, controller: Option<Handler>, authorizationHandler: Option<Handler>): (r: Result<EndpointState, string>)
    ensures r.Failure? && |uc.entities| > 1 ==> r.error == TooManyEntities(uc.id)
    ensures r.Success? ==> r.value.id == EndpointId(uc.id, version) && r.value.version == version
  {
    if |uc.entities| > 1 then Failure(TooManyEntities(uc.id))
    else
      var o := UseOptions(Undefined, "", None, None, "", controller, authorizationHandler);
      UseKeepsOverrides(Initial(uc, version, None, None), o);
      var (s, e) := ApplyUse(Initial(uc, version, None, None), o);
      if e.Some? then Failure(e.value) else Success(s)
  }

  /** `Default` for the builder's version and handlers. */
  function DefaultOf(version: string, controller: Option<Handler>, authorizationHandler: Option<Handler>): UseCase -> Result<EndpointState, string> {
    uc => Default(uc, version, controller, authorizationHandler)
  }

  /**
   * What `build` registers, walking the use cases in order: for each one
   * neither ignored nor linked, the id of the use case and what `make`
   * gives for it; the first failure stops the walk with its error.
   */
  function Registered<T>(ucs: seq<UseCase>, linked: set<string>, ignored: seq<string>, make: UseCase -> Result<T, string>): (r: (seq<(string, T)>, Option<string>))
    decreases |ucs|, 1
  {
    if ucs == [] then ([], None) else Visit(ucs, linked, ignored, make)
  }

  /** One step of the walk: the first use case is skipped, or registered before the rest. */
  function Visit<T>(ucs: seq<UseCase>, linked: set<string>, ignored: seq<string>, make: UseCase -> Result<T, string>): (r: (seq<(string, T)>, Option<string>))
    requires ucs != []
    decreases |ucs|, 0
  {
    var uc := ucs[0];
    if uc.id in ignored || uc.id in linked then Registered(ucs[1..], linked, ignored, make)
    else
      match make(uc)
      case Failure(e) => ([], Some(e))
      case Success(s) =>
        var rest := Registered(ucs[1..], linked + {uc.id}, ignored, make);
        ([(uc.id, s)] + rest.0, rest.1)
  }

  lemma RegisteredSkip<T>(ucs: seq<UseCase>, i: nat, linked: set<string>, ignored: seq<string>, make: UseCase -> Result<T, string>)
    requires i < |ucs| && (ucs[i].id in ignored || ucs[i].id in linked)
    ensures Registered(ucs[i..], linked, ignored, make) == Registered(ucs[i + 1..], linked, ignored, make)
  {
    assert ucs[i..][0] == ucs[i] && ucs[i..][1..] == ucs[i + 1..];
  }

  lemma RegisteredVisit<T>(ucs: seq<UseCase>, i: nat, linked: set<string>, ignored: seq<string>, make: UseCase -> Result<T, string>)
    requires i < |ucs| && ucs[i].id !in ignored && ucs[i].id !in linked
    ensures var next := Registered(ucs[i + 1..], linked + {ucs[i].id}, ignored, make);
      Registered(ucs[i..], linked, ignored, make)
        == match make(ucs[i]) case Failure(e) => ([], Some(e)) case Success(s) => ([(ucs[i].id, s)] + next.0, next.1)
  {
    assert ucs[i..][0] == ucs[i] && ucs[i..][1..] == ucs[i + 1..];
  }

  /**
   * `regs` and `e` are what `make` gives for `pending`, in order: a success
   * for each of the first `|regs|` use cases, then the failure `e` at the
   * next one, or no failure once all of them are registered.
   */
  ghost predicate Covers<T>(regs: seq<(string, T)>, e: Option<string>, pending: seq<UseCase>, make: UseCase -> Result<T, string>) {
    && |regs| <= |pending|
    && (forall j :: 0 <= j < |regs| ==> regs[j].0 == pending[j].id && make(pending[j]) == Success(regs[j].1))
    && (e.None? ==> |regs| == |pending|)
    && (e.Some? ==> |regs| < |pending| && make(pending[|regs|]) == Failure(e.value))
  }

  lemma CoversCons<T>(uc: UseCase, s: T, regs: seq<(string, T)>, e: Option<string>, pending: seq<UseCase>, make: UseCase -> Result<T, string>)
    requires Covers(regs, e, pending, make) && make(uc) == Success(s)
    ensures Covers([(uc.id, s)] + regs, e, [uc] + pending, make)
  {
    var regs' := [(uc.id, s)] + regs;
    var pending' := [uc] + pending;
    assert forall j :: 1 <= j < |regs'| ==> regs'[j] == regs[j - 1] && pending'[j] == pending[j - 1];
  }

  /**
   * The walk registers what `make` gives for the pending use cases, in
   * order, up to the first failure, and for all of them when none fails.
   */
  lemma {:induction false} RegisteredArePending<T>(ucs: seq<UseCase>, linked: set<string>, ignored: seq<string>, make: UseCase -> Result<T, string>)
    ensures Covers(Registered(ucs, linked, ignored, make).0, Registered(ucs, linked, ignored, make).1, Pending(ucs, linked, ignored), make)
    decreases |ucs|
  {
    if ucs != [] {
      var uc := ucs[0];
      if uc.id in ignored || uc.id in linked {
        RegisteredArePending(ucs[1..], linked, ignored, make);
      } else if make(uc).Success? {
        RegisteredArePending(ucs[1..], linked + {uc.id}, ignored, make);
        var rest := Registered(ucs[1..], linked + {uc.id}, ignored, make);
        CoversCons(uc, make(uc).value, rest.0, rest.1, Pending(ucs[1..], linked + {uc.id}, ignored), make);
      }
    }
  }

  /**
   * With nothing pending the walk registers nothing and meets no error: a
   * `build` that ended without error, run again for the same version, adds
   * no endpoint.
   */
  lemma NothingToRegister<T>(ucs: seq<UseCase>, linked: set<string>, ignored: seq<string>, make: UseCase -> Result<T, string>)
    requires Pending(ucs, linked, ignored) == []
    ensures Registered(ucs, linked, ignored, make) == ([], None)
  {
    RegisteredArePending(ucs, linked, ignored, make);
  }

  /**
   * The state of `build`'s walk after the first `i` use cases: the nodes
   * `added` to those of `start` are linked to the registered use cases, what
   * is left to register completes `whole`, and every use case passed is
   * ignored or linked.
   */
  ghost predicate Walked<T>(ucs: seq<UseCase>, i: nat, ignored: seq<string>, version: string, make: UseCase -> Result<T, string>,
                            start: seq<EndpointNode>, added: seq<EndpointNode>, regs: seq<(string, T)>,
                            whole: (seq<(string, T)>, Option<string>))
  {
    && i <= |ucs| && |added| == |regs|
    && whole == (regs + Registered(ucs[i..], Linked(start + added, version), ignored, make).0,
                 Registered(ucs[i..], Linked(start + added, version), ignored, make).1)
    && (forall j :: 0 <= j < |added| ==> added[j].usecaseID == regs[j].0)
    && (forall uc :: uc in ucs[..i] ==> uc.id in ignored || uc.id in Linked(start + added, version))
  }

  lemma WalkedStart<T>(ucs: seq<UseCase>, ignored: seq<string>, version: string, make: UseCase -> Result<T, string>, start: seq<EndpointNode>)
    ensures Walked(ucs, 0, ignored, version, make, start, [], [], Registered(ucs, Linked(start, version), ignored, make))
  {
    assert ucs[0..] == ucs && start + [] == start;
    assert [] + Registered(ucs, Linked(start, version), ignored, make).0 == Registered(ucs, Linked(start, version), ignored, make).0;
  }

  lemma WalkedSkip<T>(ucs: seq<UseCase>, i: nat, ignored: seq<string>, version: string, make: UseCase -> Result<T, string>,
                      start: seq<EndpointNode>, added: seq<EndpointNode>, regs: seq<(string, T)>, whole: (seq<(string, T)>, Option<string>))
    requires Walked(ucs, i, ignored, version, make, start, added, regs, whole) && i < |ucs|
    requires ucs[i].id in ignored || ucs[i].id in Linked(start + added, version)
    ensures Walked(ucs, i + 1, ignored, version, make, start, added, regs, whole)
  {
    RegisteredSkip(ucs, i, Linked(start + added, version), ignored, make);
    assert ucs[..i + 1] == ucs[..i] + [ucs[i]];
  }

  lemma WalkedVisit<T>(ucs: seq<UseCase>, i: nat, ignored: seq<string>, version: string, make: UseCase -> Result<T, string>,
                       start: seq<EndpointNode>, added: seq<EndpointNode>, regs: seq<(string, T)>, whole: (seq<(string, T)>, Option<string>),
                       node: EndpointNode, made: T)
    requires Walked(ucs, i, ignored, version, make, start, added, regs, whole) && i < |ucs|
    requires node.usecaseID == ucs[i].id && node.endpoint.version == version
    requires var linked := Linked(start + added, version);
      var next := Registered(ucs[i + 1..], linked + {ucs[i].id}, ignored, make);
      Registered(ucs[i..], linked, ignored, make) == ([(ucs[i].id, made)] + next.0, next.1)
    ensures Walked(ucs, i + 1, ignored, version, make, start, added + [node], regs + [(ucs[i].id, made)], whole)
  {
    var linked := Linked(start + added, version);
    var next := Registered(ucs[i + 1..], linked + {ucs[i].id}, ignored, make);
    LinkedAppend(start + added, node, version);
    assert start + (added + [node]) == (start + added) + [node];
    assert regs + ([(ucs[i].id, made)] + next.0) == (regs + [(ucs[i].id, made)]) + next.0;
    assert ucs[..i + 1] == ucs[..i] + [ucs[i]];
  }

  lemma WalkedStop<T>(ucs: seq<UseCase>, i: nat, ignored: seq<string>, version: string, make: UseCase -> Result<T, string>,
                      start: seq<EndpointNode>, added: seq<EndpointNode>, regs: seq<(string, T)>, whole: (seq<(string, T)>, Option<string>), e: string)
    requires Walked(ucs, i, ignored, version, make, start, added, regs, whole) && i < |ucs|
    requires Registered(ucs[i..], Linked(start + added, version), ignored, make) == ([], Some(e))
    ensures whole == (regs, Some(e))
  {
    assert regs + [] == regs;
  }

  lemma WalkedEnd<T>(ucs: seq<UseCase>, ignored: seq<string>, version: string, make: UseCase -> Result<T, string>,
                     start: seq<EndpointNode>, added: seq<EndpointNode>, regs: seq<(string, T)>, whole: (seq<(string, T)>, Option<string>))
    requires Walked(ucs, |ucs|, ignored, version, make, start, added, regs, whole)
    ensures whole == (regs, None)
    ensures Pending(ucs, Linked(start + added, version), ignored) == []
  {
    assert ucs[..|ucs|] == ucs && ucs[|ucs|..] == [] && regs + [] == regs;
    NothingPending(ucs, Linked(start + added, version), ignored);
  }

  /** The builder of one version. */
  class EndpointBuilder {
    const herbarium: Herbarium
    const version: string
    const controller: Option<Handler>
    const authorizationHandler: Option<Handler>
    var ignored: seq<string>

    /** A builder starts with nothing ignored. */
    constructor (herbarium: Herbarium, version: string, controller: Option<Handler>, authorizationHandler: Option<Handler>)
      ensures this.herbarium == herbarium && this.version == version
      ensures this.controller == controller && this.authorizationHandler == authorizationHandler
      ensures ignored == []
    {
      this.herbarium := herbarium;
      this.version := version;
      this.controller := controller;
      this.authorizationHandler := authorizationHandler;
      ignored := [];
    }

    /**
     * `for`: the endpoint of a registered use case, registered under
     * `endpointID` when one is given and under its default id otherwise.
     */
    method For(usecaseID: string, endpointID: string) returns (r: Result<Endpoint, string>)
      modifies herbarium
      ensures herbarium.usecases == old(herbarium.usecases)
      ensures FindUseCase(herbarium.usecases, usecaseID).None? ==> r == Failure("Use case " + usecaseID + " not found.")
      ensures r.Failure? ==> herbarium.endpoints == old(herbarium.endpoints)
      ensures r.Success? <==> FindUseCase(herbarium.usecases, usecaseID).Some?
                              && |FindUseCase(herbarium.usecases, usecaseID).value.entities| <= 1
      ensures r.Success? ==>
        var s := Initial(FindUseCase(herbarium.usecases, usecaseID).value, version, controller, authorizationHandler);
        && fresh(r.value)
        && r.value.State() == s.(id := if endpointID != "" then endpointID else s.id)
        && herbarium.endpoints == old(herbarium.endpoints) + [EndpointNode(r.value.id, r.value, usecaseID)]
    {
      var found := FindUseCase(herbarium.usecases, usecaseID);
      if found.None? {
        return Failure("Use case " + usecaseID + " not found.");
      }
      r := Endpoint.For(found.value, version, controller, authorizationHandler);
      if r.Failure? {
        return;
      }
      var endpoint := r.value;
      if endpointID != "" {
        endpoint.SetId(endpointID);
      }
      herbarium.endpoints := herbarium.endpoints + [EndpointNode(endpoint.id, endpoint, usecaseID)];
    }

    /** `ignore`: the use case gets no default endpoint from this builder. */
    method Ignore(usecaseID: string)
      modifies this
      ensures ignored == old(ignored) + [usecaseID]
    {
      ignored := ignored + [usecaseID];
    }

    /**
     * The node `build` registers for the use case `ucs[i]`, neither ignored
     * nor linked: `Endpoint.for` without handlers, then `use` with the
     * builder's; the result is the walk's step at `i`.
     */
    method MakeDefault(uc: UseCase, ghost ucs: seq<UseCase>, ghost i: nat, ghost linked: set<string>) returns (r: Result<EndpointNode, string>)
      requires i < |ucs| && ucs[i] == uc && uc.id !in ignored && uc.id !in linked
      ensures var here := Registered(ucs[i..], linked, ignored, DefaultOf(version, controller, authorizationHandler));
        var next := Registered(ucs[i + 1..], linked + {uc.id}, ignored, DefaultOf(version, controller, authorizationHandler));
        && (r.Failure? ==> here == ([], Some(r.error)))
        && (r.Success? ==> fresh(r.value.endpoint) && here == ([(uc.id, r.value.endpoint.State())] + next.0, next.1)
                           && r.value.id == r.value.endpoint.State().id && r.value.usecaseID == uc.id
                           && r.value.endpoint.version == version)
    {
      RegisteredVisit(ucs, i, linked, ignored, DefaultOf(version, controller, authorizationHandler));
      var made := Endpoint.For(uc, version, None, None);
      if made.Failure? {
        return Failure(made.error);
      }
      var endpoint := made.value;
      var e := endpoint.Use(UseOptions(Undefined, "", None, None, "", controller, authorizationHandler));
      if e.Some? {
        return Failure(e.value);
      }
      return Success(EndpointNode(endpoint.id, endpoint, uc.id));
    }

    /**
     * One registering step of `build`, at a use case neither ignored nor
     * linked: its default endpoint is linked in the registry and the walk
     * goes on with it (`added'`, `regs'`), or the walk stops with the error
     * and nothing changes.
     */
    method Advance(uc: UseCase, ghost ucs: seq<UseCase>, ghost i: nat, ghost start: seq<EndpointNode>, ghost added: seq<EndpointNode>,
                   ghost regs: seq<(string, EndpointState)>, ghost whole: (seq<(string, EndpointState)>, Option<string>))
      returns (r: Result<EndpointNode, string>, ghost added': seq<EndpointNode>, ghost regs': seq<(string, EndpointState)>)
      modifies herbarium
      requires i < |ucs| && ucs[i] == uc && uc.id !in ignored && uc.id !in Linked(start + added, version)
      requires herbarium.endpoints == start + added
      requires Walked(ucs, i, ignored, version, DefaultOf(version, controller, authorizationHandler), start, added, regs, whole)
      requires forall j :: 0 <= j < |added| ==> added[j].id == regs[j].1.id && States(added)[j] == regs[j].1
      ensures herbarium.usecases == old(herbarium.usecases)
      ensures r.Failure? ==> whole == (regs, Some(r.error)) && added' == added && regs' == regs
      ensures herbarium.endpoints == start + added' && |added'| == |regs'|
      ensures forall j :: 0 <= j < |added'| ==> added'[j].id == regs'[j].1.id && States(added')[j] == regs'[j].1
      ensures r.Success? ==>
        && fresh(r.value.endpoint) && added' == added + [r.value]
        && Walked(ucs, i + 1, ignored, version, DefaultOf(version, controller, authorizationHandler), start, added', regs', whole)
    {
      ghost var make := DefaultOf(version, controller, authorizationHandler);
      added', regs' := added, regs;
      r := MakeDefault(uc, ucs, i, Linked(start + added, version));
      if r.Failure? {
        WalkedStop(ucs, i, ignored, version, make, start, added, regs, whole, r.error);
        return;
      }
      var node := r.value;
      WalkedVisit(ucs, i, ignored, version, make, start, added, regs, whole, node, node.endpoint.State());
      added', regs' := Link(node, uc.id, start, added, regs);
    }

    /**
     * The registering half of a step: the node goes last in the registry,
     * and the walk's record pairs it with the state of its endpoint.
     */
    method Link(node: EndpointNode, ghost usecaseID: string, ghost start: seq<EndpointNode>, ghost added: seq<EndpointNode>,
                ghost regs: seq<(string, EndpointState)>)
      returns (ghost added': seq<EndpointNode>, ghost regs': seq<(string, EndpointState)>)
      modifies herbarium
      requires herbarium.endpoints == start + added && |added| == |regs|
      requires node.id == node.endpoint.State().id
      requires forall j :: 0 <= j < |added| ==> added[j].id == regs[j].1.id && States(added)[j] == regs[j].1
      ensures herbarium.usecases == old(herbarium.usecases)
      ensures added' == added + [node] && regs' == regs + [(usecaseID, node.endpoint.State())]
      ensures herbarium.endpoints == start + added'
      ensures forall j :: 0 <= j < |added'| ==> added'[j].id == regs'[j].1.id && States(added')[j] == regs'[j].1
    {
      ghost var made := node.endpoint.State();
      herbarium.endpoints := herbarium.endpoints + [node];
      StatesAppend(added, node);
      ConcatAssoc(start, added, [node]);
      added', regs' := added + [node], regs + [(usecaseID, made)];
      forall j | 0 <= j < |added'|
        ensures added'[j].id == regs'[j].1.id && States(added')[j] == regs'[j].1
      {
        if j < |added| {
          assert added'[j] == added[j] && regs'[j] == regs[j];
        }
      }
    }

    /**
     * One turn of `build`'s loop at the use case `ucs[i]`: an ignored or
     * linked use case is passed over, any other one gets its default
     * endpoint, or stops the walk with the error and changes nothing.
     */
    method BuildStep(uc: UseCase, ghost ucs: seq<UseCase>, ghost i: nat, ghost start: seq<EndpointNode>, ghost added: seq<EndpointNode>,
                     ghost regs: seq<(string, EndpointState)>, ghost whole: (seq<(string, EndpointState)>, Option<string>))
      returns (err: Option<string>, ghost added': seq<EndpointNode>, ghost regs': seq<(string, EndpointState)>)
      modifies herbarium
      requires i < |ucs| && ucs[i] == uc && herbarium.endpoints == start + added
      requires Walked(ucs, i, ignored, version, DefaultOf(version, controller, authorizationHandler), start, added, regs, whole)
      requires forall j :: 0 <= j < |added| ==> added[j].id == regs[j].1.id && States(added)[j] == regs[j].1
      ensures herbarium.usecases == old(herbarium.usecases) && herbarium.endpoints == start + added'
      ensures err.Some? ==> whole == (regs, err) && added' == added && regs' == regs
      ensures err.None? ==> Walked(ucs, i + 1, ignored, version, DefaultOf(version, controller, authorizationHandler), start, added', regs', whole)
      ensures forall n :: n in added' ==> n in added || fresh(n.endpoint)
      ensures forall j :: 0 <= j < |added'| ==> added'[j].id == regs'[j].1.id && States(added')[j] == regs'[j].1
    {
      err, added', regs' := None, added, regs;
      if uc.id in ignored || uc.id in Linked(herbarium.endpoints, version) {
        WalkedSkip(ucs, i, ignored, version, DefaultOf(version, controller, authorizationHandler), start, added, regs, whole);
      } else {
        var r;
        r, added', regs' := Advance(uc, ucs, i, start, added, regs, whole);
        if r.Failure? {
          err := Some(r.error);
        }
      }
    }

    /**
     * `build`: one default endpoint, linked to its use case, for every
     * pending use case in order; the first failure stops it, keeping the
     * endpoints registered before it.
     */
    method Build() returns (err: Option<string>, ghost added: seq<EndpointNode>)
      modifies herbarium
      ensures herbarium.usecases == old(herbarium.usecases)
      ensures var (regs, e) := Registered(herbarium.usecases, Linked(old(herbarium.endpoints), version), ignored,
                                    DefaultOf(version, controller, authorizationHandler));
        && err == e
        && herbarium.endpoints == old(herbarium.endpoints) + added
        && |added| == |regs|
        && forall j :: 0 <= j < |added| ==>
             && States(added)[j] == regs[j].1 && added[j].id == regs[j].1.id && added[j].usecaseID == regs[j].0
      ensures forall n :: n in added ==> fresh(n.endpoint)
      ensures err.None? ==> Pending(herbarium.usecases, Linked(herbarium.endpoints, version), ignored) == []
    {
      var ucs := herbarium.usecases;
      ghost var start := herbarium.endpoints;
      ghost var make := DefaultOf(version, controller, authorizationHandler);
      ghost var whole := Registered(ucs, Linked(start, version), ignored, make);
      added := [];
      ghost var regs: seq<(string, EndpointState)> := [];
      WalkedStart(ucs, ignored, version, make, start);
      assert start + added == start;
      err := None;
      var i := 0;
      while i < |ucs| && err.None?
        invariant herbarium.usecases == ucs && herbarium.endpoints == start + added
        invariant Walked(ucs, i, ignored, version, make, start, added, regs, whole)
        invariant err.Some? ==> whole == (regs, err)
        invariant forall n :: n in added ==> fresh(n.endpoint)
        invariant forall j :: 0 <= j < |added| ==> added[j].id == regs[j].1.id && States(added)[j] == regs[j].1
        decreases |ucs| - i, if err.None? then 1 else 0
      {
        err, added, regs := BuildStep(ucs[i], ucs, i, start, added, regs, whole);
        if err.None? {
          i := i + 1;
        }
      }
      if err.None? {
        WalkedEnd(ucs, ignored, version, make, start, added, regs, whole);
      }
      assert whole == (regs, err) && |added| == |regs|;
    }
  }
}
