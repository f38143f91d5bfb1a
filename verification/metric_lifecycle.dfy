/** Whole runs of the metric sink controller: what every call keeps, whatever fails, and what they amount to when nothing fails. */
module MetricLifecycle {
  import opened MetricController

  // One call.

  predicate Agree(a: Store, b: Store, r: Resource) {
    (r in a <==> r in b) && (r in a ==> a[r] == b[r])
  }

  /** The call is about the resources of the sink `id`. */
  predicate Concerns(call: Call, id: Id) {
    match call
    case Create(r, _) => r == ResourceOf(r.kind, id)
    case Update(r, _) => r == ResourceOf(r.kind, id)
    case Delete(r) => r == ResourceOf(r.kind, id)
    case DeletePods(namespace, app) => namespace == id.namespace && app == AppName(id.name)
  }

  lemma ScriptConcernsSubject(clusterName: string, e: Event, i: nat)
    requires i < |Script(clusterName, e)|
    ensures Concerns(Script(clusterName, e)[i], IdOf(Subject(e)))
  {
    hide ObjectOf;
  }

  lemma ResourceTellsSink(kind: Kind, a: Id, b: Id)
    requires ResourceOf(kind, a) == ResourceOf(kind, b)
    ensures a == b
  {
    assert AppName(a.name)[|PREFIX|..] == a.name && AppName(b.name)[|PREFIX|..] == b.name;
  }

  /** Handling one sink never touches a resource of another, at any moment and whatever fails. */
  lemma {:induction false} OthersAreUntouched(clusterName: string, e: Event, store: Store, steps: seq<Step>, after: Store, i: nat, r: Resource)
    requires Follows(Script(clusterName, e), store, steps, after) && i <= |steps|
    requires r != ResourceOf(r.kind, IdOf(Subject(e)))
    ensures Agree(store, StoreAt(store, steps, i), r)
  {
    hide Script;
    if i > 0 {
      OthersAreUntouched(clusterName, e, store, steps, after, i - 1, r);
      assert StepFits(Script(clusterName, e), store, steps, i - 1);
      ScriptConcernsSubject(clusterName, e, i - 1);
    }
  }

  // Resource order.

  /**
   No config map and no deployment without its role binding, no role binding without its role; and a binding names
   the role, a deployment the config map, of its own name.
   */
  predicate OrderedAt(store: Store, namespace: string, name: string) {
    var binding, deployment := Resource(RoleBinding, namespace, name), Resource(Deployment, namespace, name);
    && (Resource(ConfigMap, namespace, name) in store ==> binding in store)
    && (deployment in store ==> binding in store && store[deployment].body == DeploymentBody(name))
    && (binding in store ==> Resource(Role, namespace, name) in store && store[binding].body == BindingBody(name, namespace))
  }

  ghost predicate Ordered(store: Store) {
    forall namespace, name :: OrderedAt(store, namespace, name)
  }

  /** The call respects the order: nothing is created before, or deleted after, what it rests on. */
  predicate Safe(store: Store, call: Call) {
    match call
    case Create(r, o) =>
      && (r.kind == ConfigMap ==> Resource(RoleBinding, r.namespace, r.name) in store)
      && (r.kind == Deployment ==> Resource(RoleBinding, r.namespace, r.name) in store && o.body == DeploymentBody(r.name))
      && (r.kind == RoleBinding ==> Resource(Role, r.namespace, r.name) in store && o.body == BindingBody(r.name, r.namespace))
    case Update(r, _) => r.kind == ConfigMap
    case Delete(r) =>
      && (r.kind == RoleBinding ==> Resource(ConfigMap, r.namespace, r.name) !in store && Resource(Deployment, r.namespace, r.name) !in store)
      && (r.kind == Role ==> Resource(RoleBinding, r.namespace, r.name) !in store)
    case DeletePods(_, _) => true
  }

  lemma SafeCallKeepsOrder(before: Store, call: Call, reply: Reply, after: Store)
    requires Ordered(before) && Safe(before, call) && Answers(before, call, reply, after)
    ensures Ordered(after)
  {
    forall namespace, name ensures OrderedAt(after, namespace, name) {
      assert OrderedAt(before, namespace, name);
    }
  }

  /** The kinds of resources that exist for a sink. */
  function Has(store: Store, id: Id): set<Kind> {
    set kind | kind in ALL && ResourceOf(kind, id) in store
  }

  const ALL := {Role, RoleBinding, ConfigMap, Deployment}

  /** What exists after the first `n` calls of a handler for a new sink. */
  function Created(n: nat): set<Kind> {
    if n == 0 then {} else if n == 1 then {Role} else if n == 2 then {Role, RoleBinding}
    else if n == 3 then {Role, RoleBinding, ConfigMap} else ALL
  }

  /** What is gone after the first `n` calls of a handler for a deleted sink. */
  function Removed(n: nat): set<Kind> {
    if n == 0 then {} else if n == 1 then {ConfigMap} else if n == 2 then {ConfigMap, Deployment}
    else if n == 3 then {ConfigMap, Deployment, RoleBinding} else ALL
  }

  /** What the `i`-th call of a handler is about. */
  lemma ScriptKinds(clusterName: string, e: Event, i: nat)
    requires i < |Script(clusterName, e)|
    ensures var call := Script(clusterName, e)[i];
            match e
            case Added(_) => call.Create? && call.r.kind !in Created(i) && Created(i + 1) == Created(i) + {call.r.kind}
            case Updated(_, _) => call.DeletePods? || (call.Update? && call.r.kind == ConfigMap)
            case Deleted(_) => call.Delete? && call.r.kind !in Removed(i) && Removed(i + 1) == Removed(i) + {call.r.kind}
  {
    hide ObjectOf;
  }

  /** Where a handler that has not failed yet stands after `i` calls. */
  lemma {:induction false} Progress(clusterName: string, e: Event, store: Store, steps: seq<Step>, after: Store, i: nat)
    requires Follows(Script(clusterName, e), store, steps, after) && i <= |steps| && forall j | 0 <= j < i :: steps[j].reply == Done
    requires Ordered(store)
    ensures var id, now := IdOf(Subject(e)), StoreAt(store, steps, i);
      match e
      case Added(_) => i > 0 ==> Has(store, id) == {} && Has(now, id) == Created(i)
      case Updated(_, _) => Has(now, id) == Has(store, id)
      case Deleted(_) => Removed(i) <= Has(store, id) && Has(now, id) == Has(store, id) - Removed(i)
  {
    if i > 0 {
      Progress(clusterName, e, store, steps, after, i - 1);
      assert StepFits(Script(clusterName, e), store, steps, i - 1);
      var id, before, now := IdOf(Subject(e)), StoreAt(store, steps, i - 1), StoreAt(store, steps, i);
      ScriptKinds(clusterName, e, i - 1);
      ScriptConcernsSubject(clusterName, e, i - 1);
      if i == 1 && e.Added? {
        assert steps[0].call == CreateOf(clusterName, Role, e.sink);
        NoRoleNothing(store, id);
      }
      assert Created(0) == {} && Removed(0) == {};
      CallChangesKinds(before, steps[i - 1].call, now, id);
      hide ObjectOf, Ordered, Script, Created, Removed, Has, Concerns, Follows;
    }
  }

  lemma NoRoleNothing(store: Store, id: Id)
    requires Ordered(store) && ResourceOf(Role, id) !in store
    ensures Has(store, id) == {}
  {
    assert OrderedAt(store, id.namespace, AppName(id.name));
  }

  lemma CallChangesKinds(before: Store, call: Call, after: Store, id: Id)
    requires Concerns(call, id) && Answers(before, call, Done, after)
    ensures match call
            case Create(r, _) => r.kind !in Has(before, id) && Has(after, id) == Has(before, id) + {r.kind}
            case Delete(r) => r.kind in Has(before, id) && Has(after, id) == Has(before, id) - {r.kind}
            case _ => Has(after, id) == Has(before, id)
  {
    if !call.DeletePods? {
      EveryKind(call.r.kind);
      assert call.r == ResourceOf(call.r.kind, id);
      assert call.r.kind in Has(before, id) <==> call.r in before;
      assert forall kind | kind in ALL && kind != call.r.kind :: kind in Has(after, id) <==> kind in Has(before, id);
      assert call.r.kind in Has(after, id) <==> call.r in after;
    }
  }

  lemma EveryKind(kind: Kind)
    ensures kind in ALL
  {
    match kind {
      case Role =>
      case RoleBinding =>
      case ConfigMap =>
      case Deployment =>
    }
  }

  /** The handler's next call is safe. */
  lemma NextCallIsSafe(clusterName: string, e: Event, store: Store, steps: seq<Step>, after: Store, i: nat)
    requires Follows(Script(clusterName, e), store, steps, after) && i < |steps| && Ordered(store)
    ensures Safe(StoreAt(store, steps, i), steps[i].call)
  {
    hide Ordered, Has, Safe, MetricSinkConfig, OwnerOf;
    Progress(clusterName, e, store, steps, after, i);
    ScriptConcernsSubject(clusterName, e, i);
    assert StepFits(Script(clusterName, e), store, steps, i);
    SafeByKinds(StoreAt(store, steps, i), steps[i].call, IdOf(Subject(e)));
  }

  lemma SafeByKinds(store: Store, call: Call, id: Id)
    requires Concerns(call, id)
    requires match call
             case Create(r, o) =>
               && (r.kind in {ConfigMap, Deployment} ==> RoleBinding in Has(store, id))
               && (r.kind == RoleBinding ==> Role in Has(store, id) && o.body == BindingBody(r.name, r.namespace))
               && (r.kind == Deployment ==> o.body == DeploymentBody(r.name))
             case Update(r, _) => r.kind == ConfigMap
             case Delete(r) =>
               && (r.kind == RoleBinding ==> ConfigMap !in Has(store, id) && Deployment !in Has(store, id))
               && (r.kind == Role ==> RoleBinding !in Has(store, id))
             case DeletePods(_, _) => true
    ensures Safe(store, call)
  {
    forall kind ensures kind in Has(store, id) <==> ResourceOf(kind, id) in store {
      KindsAreResources(store, id, kind);
    }
    hide Has;
    assert ResourceOf(Role, id) == Resource(Role, id.namespace, AppName(id.name));
    assert ResourceOf(RoleBinding, id) == Resource(RoleBinding, id.namespace, AppName(id.name));
    assert ResourceOf(ConfigMap, id) == Resource(ConfigMap, id.namespace, AppName(id.name));
    assert ResourceOf(Deployment, id) == Resource(Deployment, id.namespace, AppName(id.name));
  }

  /** Whatever fails, the order holds at every moment of a handler that finds it. */
  lemma {:induction false} HandlerKeepsOrder(clusterName: string, e: Event, store: Store, steps: seq<Step>, after: Store, i: nat)
    requires Follows(Script(clusterName, e), store, steps, after) && i <= |steps| && Ordered(store)
    ensures Ordered(StoreAt(store, steps, i))
  {
    if i > 0 {
      HandlerKeepsOrder(clusterName, e, store, steps, after, i - 1);
      NextCallIsSafe(clusterName, e, store, steps, after, i - 1);
      assert StepFits(Script(clusterName, e), store, steps, i - 1);
      hide Follows, Ordered, Script, Safe;
      SafeCallKeepsOrder(StoreAt(store, steps, i - 1), steps[i - 1].call, steps[i - 1].reply, steps[i - 1].after);
    }
  }

  /** Once the role is created, none of the handler's creations can hit an existing object. */
  lemma CreatedRoleMeansNoCollision(clusterName: string, ms: MetricSink, store: Store, steps: seq<Step>, after: Store, i: nat)
    requires Follows(Script(clusterName, Added(ms)), store, steps, after) && Ordered(store)
    requires i < |steps| && steps[0].reply == Done
    ensures steps[i].reply == Done || steps[i].reply == Unavailable
  {
    if i > 0 {
      hide Ordered, Script, Created, Has;
      var script := Script(clusterName, Added(ms));
      Progress(clusterName, Added(ms), store, steps, after, i);
      ScriptKinds(clusterName, Added(ms), i);
      ScriptConcernsSubject(clusterName, Added(ms), i);
      assert StepFits(script, store, steps, i);
      KindsAreResources(StoreAt(store, steps, i), IdOf(ms), script[i].r.kind);
    }
  }

  lemma KindsAreResources(store: Store, id: Id, kind: Kind)
    ensures kind in Has(store, id) <==> ResourceOf(kind, id) in store
  {
    EveryKind(kind);
  }

  // Any run.

  /** The stores between the handlers of a run, and each handler's calls. */
  ghost predicate RunsFrom(clusterName: string, start: Store, events: seq<Event>, stores: seq<Store>, handlers: seq<seq<Step>>) {
    && |stores| == |events| + 1 && |handlers| == |events| && stores[0] == start
    && forall n | 0 <= n < |events| :: Follows(Script(clusterName, events[n]), stores[n], handlers[n], stores[n + 1])
  }

  /** The controller's methods make such runs. */
  method DeliverAll(controller: Controller, events: seq<Event>) returns (ghost stores: seq<Store>, ghost handlers: seq<seq<Step>>)
    modifies controller.api
    ensures RunsFrom(controller.clusterName, old(controller.api.store), events, stores, handlers)
    ensures stores[|events|] == controller.api.store
  {
    hide Follows, Script;
    stores, handlers := [controller.api.store], [];
    for n := 0 to |events|
      invariant |stores| == n + 1 && |handlers| == n && stores[0] == old(controller.api.store) && stores[n] == controller.api.store
      invariant forall m | 0 <= m < n :: Follows(Script(controller.clusterName, events[m]), stores[m], handlers[m], stores[m + 1])
    {
      ghost var made := |controller.api.trace|;
      match events[n] {
        case Added(ms) => controller.OnAdd(ms);
        case Updated(before, ms) => controller.OnUpdate(before, ms);
        case Deleted(ms) => controller.OnDelete(ms);
      }
      handlers := handlers + [controller.api.trace[made..]];
      stores := stores + [controller.api.store];
    }
  }

  lemma {:induction false} StoresAreOrdered(clusterName: string, start: Store, events: seq<Event>, stores: seq<Store>, handlers: seq<seq<Step>>, n: nat)
    requires RunsFrom(clusterName, start, events, stores, handlers) && Ordered(start) && n < |stores|
    ensures Ordered(stores[n])
  {
    if n > 0 {
      StoresAreOrdered(clusterName, start, events, stores, handlers, n - 1);
      assert Follows(Script(clusterName, events[n - 1]), stores[n - 1], handlers[n - 1], stores[n]);
      hide Ordered, Script;
      HandlerKeepsOrder(clusterName, events[n - 1], stores[n - 1], handlers[n - 1], stores[n], |handlers[n - 1]|);
    }
  }

  /**
   From an empty cluster, after every single call of every handler, for any notifications and any failures: config maps
   and deployments have their role binding, and role bindings their role.
   */
  lemma EveryMomentIsOrdered(clusterName: string, events: seq<Event>, stores: seq<Store>, handlers: seq<seq<Step>>, n: nat, i: nat)
    requires RunsFrom(clusterName, map[], events, stores, handlers) && n < |handlers| && i <= |handlers[n]|
    ensures Ordered(StoreAt(stores[n], handlers[n], i))
  {
    StoresAreOrdered(clusterName, map[], events, stores, handlers, n);
    assert Follows(Script(clusterName, events[n]), stores[n], handlers[n], stores[n + 1]);
    hide Ordered, Script;
    HandlerKeepsOrder(clusterName, events[n], stores[n], handlers[n], stores[n + 1], i);
  }

  // Failures the controller never recovers from.

  /** Every call is answered. */
  predicate Undisturbed(steps: seq<Step>) {
    forall i | 0 <= i < |steps| :: steps[i].reply != Unavailable
  }

  predicate Stuck(store: Store, id: Id) {
    ResourceOf(Role, id) in store && ResourceOf(ConfigMap, id) !in store
  }

  lemma StuckSinkIsLeftAlone(clusterName: string, e: Event, store: Store, steps: seq<Step>, after: Store, id: Id, kind: Kind)
    requires Follows(Script(clusterName, e), store, steps, after) && Stuck(store, id)
    ensures Agree(store, after, ResourceOf(kind, id))
  {
    hide ObjectOf;
    if ResourceOf(kind, id) != ResourceOf(kind, IdOf(Subject(e))) {
      OthersAreUntouched(clusterName, e, store, steps, after, |steps|, ResourceOf(kind, id));
    } else if Script(clusterName, e) != [] {
      ResourceTellsSink(kind, id, IdOf(Subject(e)));
      assert StepFits(Script(clusterName, e), store, steps, 0);
      assert |steps| == 1;
    }
  }

  /** A sink with a role but no config map stays as it is for good: every later handler for it fails in its first call. */
  lemma {:induction false} StuckForever(clusterName: string, start: Store, events: seq<Event>, stores: seq<Store>, handlers: seq<seq<Step>>, n: nat, id: Id, kind: Kind)
    requires RunsFrom(clusterName, start, events, stores, handlers) && Stuck(start, id) && n < |stores|
    ensures Agree(start, stores[n], ResourceOf(kind, id)) && Stuck(stores[n], id)
  {
    hide Script, ResourceOf, Follows;
    if n > 0 {
      StuckForever(clusterName, start, events, stores, handlers, n - 1, id, kind);
      StuckSinkIsLeftAlone(clusterName, events[n - 1], stores[n - 1], handlers[n - 1], stores[n], id, kind);
      StuckSinkIsLeftAlone(clusterName, events[n - 1], stores[n - 1], handlers[n - 1], stores[n], id, Role);
      StuckSinkIsLeftAlone(clusterName, events[n - 1], stores[n - 1], handlers[n - 1], stores[n], id, ConfigMap);
    }
  }

  /** No handler whatever changes a resource of the sink. */
  ghost predicate Final(clusterName: string, store: Store, id: Id) {
    forall e, steps, after, kind | Follows(Script(clusterName, e), store, steps, after) :: Agree(store, after, ResourceOf(kind, id))
  }

  /** A sink without a role can be given one, however its addition goes on. */
  lemma RoleCanBeCreated(clusterName: string, ms: MetricSink, store: Store) returns (steps: seq<Step>, after: Store)
    requires ResourceOf(Role, IdOf(ms)) !in store
    ensures Follows(Script(clusterName, Added(ms)), store, steps, after) && ResourceOf(Role, IdOf(ms)) in after
  {
    hide ObjectOf, ResourceOf;
    var script := Script(clusterName, Added(ms));
    after := store[script[0].r := script[0].o];
    steps := [Step(store, script[0], Done, after), Step(after, script[1], Unavailable, after)];
  }

  lemma ConfigMapCanBeDeleted(clusterName: string, ms: MetricSink, store: Store) returns (steps: seq<Step>, after: Store)
    requires ResourceOf(ConfigMap, IdOf(ms)) in store
    ensures Follows(Script(clusterName, Deleted(ms)), store, steps, after) && ResourceOf(ConfigMap, IdOf(ms)) !in after
  {
    hide ResourceOf;
    var script := Script(clusterName, Deleted(ms));
    after := store - {script[0].r};
    steps := [Step(store, script[0], Done, after), Step(after, script[1], Unavailable, after)];
  }

  /** Stuck sinks are exactly those no handler can change any more: from every other state some handler does. */
  lemma StuckMeansFinal(clusterName: string, store: Store, ms: MetricSink)
    ensures Stuck(store, IdOf(ms)) <==> Final(clusterName, store, IdOf(ms))
  {
    hide Script, Follows, ResourceOf, IdOf;
    var id := IdOf(ms);
    if Stuck(store, id) {
      forall e, steps, after, kind | Follows(Script(clusterName, e), store, steps, after) ensures Agree(store, after, ResourceOf(kind, id)) {
        StuckSinkIsLeftAlone(clusterName, e, store, steps, after, id, kind);
      }
    } else if ResourceOf(Role, id) !in store {
      var steps, after := RoleCanBeCreated(clusterName, ms, store);
      assert !Agree(store, after, ResourceOf(Role, id));
    } else {
      var steps, after := ConfigMapCanBeDeleted(clusterName, ms, store);
      assert !Agree(store, after, ResourceOf(ConfigMap, id));
    }
  }

  /** The handler stops behind the role and before the config map: between two creations, or between two deletions. */
  predicate Sticks(e: Event, steps: seq<Step>) {
    match e
    case Added(_) => 2 <= |steps| <= 3
    case Updated(_, _) => false
    case Deleted(_) => 2 <= |steps| && steps[|steps| - 1].reply != Done
  }

  lemma FreshlyStuck(clusterName: string, e: Event, store: Store, steps: seq<Step>, after: Store)
    requires Follows(Script(clusterName, e), store, steps, after) && Ordered(store) && !Stuck(store, IdOf(Subject(e)))
    ensures Stuck(after, IdOf(Subject(e))) <==> Sticks(e, steps)
  {
    hide MetricSinkConfig, OwnerOf, AppName;
    var id, n := IdOf(Subject(e)), |steps|;
    if n > 0 {
      Progress(clusterName, e, store, steps, after, n - 1);
      if steps[n - 1].reply == Done {
        Progress(clusterName, e, store, steps, after, n);
      } else {
        assert StepFits(Script(clusterName, e), store, steps, n - 1);
      }
    }
    StuckInKinds(after, id);
    StuckInKinds(store, id);
    OrderInKinds(store, id);
    hide Ordered, StepFits, Stuck, Has;
  }

  lemma StuckMakesNoProgress(clusterName: string, e: Event, store: Store, steps: seq<Step>, after: Store)
    requires Follows(Script(clusterName, e), store, steps, after) && Stuck(store, IdOf(Subject(e)))
    ensures |steps| <= 1 && !Sticks(e, steps) && Stuck(after, IdOf(Subject(e)))
  {
    hide ObjectOf;
    if Script(clusterName, e) != [] {
      assert StepFits(Script(clusterName, e), store, steps, 0);
      assert |steps| == 1;
    }
  }

  /** A handler leaves its sink stuck exactly if it found it stuck or stops in the wrong place, whatever exists beforehand. */
  lemma StuckExactlyAfter(clusterName: string, e: Event, store: Store, steps: seq<Step>, after: Store)
    requires Follows(Script(clusterName, e), store, steps, after) && Ordered(store)
    ensures Stuck(after, IdOf(Subject(e))) <==> Stuck(store, IdOf(Subject(e))) || Sticks(e, steps)
  {
    hide Ordered, Script, Follows, Stuck, Sticks;
    if Stuck(store, IdOf(Subject(e))) {
      StuckMakesNoProgress(clusterName, e, store, steps, after);
    } else {
      FreshlyStuck(clusterName, e, store, steps, after);
    }
  }

  /** Some handler for the sink, among the first `n`, stopped in the wrong place. */
  ghost predicate StuckBefore(events: seq<Event>, handlers: seq<seq<Step>>, n: nat, id: Id)
    requires n <= |events| && n <= |handlers|
  {
    exists m :: 0 <= m < n && IdOf(Subject(events[m])) == id && Sticks(events[m], handlers[m])
  }

  /** In any run from an empty cluster a sink is stuck exactly if one of its handlers stopped in the wrong place. */
  lemma {:induction false} StuckExactlyInRun(clusterName: string, events: seq<Event>, stores: seq<Store>, handlers: seq<seq<Step>>, n: nat, id: Id)
    requires RunsFrom(clusterName, map[], events, stores, handlers) && n < |stores|
    ensures Stuck(stores[n], id) <==> StuckBefore(events, handlers, n, id)
  {
    if n > 0 {
      StuckExactlyInRun(clusterName, events, stores, handlers, n - 1, id);
      EmptyIsOrdered();
      StoresAreOrdered(clusterName, map[], events, stores, handlers, n - 1);
      hide Ordered, Script, Follows, Stuck, Sticks, ResourceOf;
      var e := events[n - 1];
      assert Follows(Script(clusterName, e), stores[n - 1], handlers[n - 1], stores[n]);
      if IdOf(Subject(e)) == id {
        StuckExactlyAfter(clusterName, e, stores[n - 1], handlers[n - 1], stores[n]);
      } else {
        OtherStaysAsStuck(clusterName, e, stores[n - 1], handlers[n - 1], stores[n], id);
      }
      OneMoreHandler(events, handlers, n - 1, id);
      hide StuckBefore, RunsFrom;
    }
  }

  lemma OneMoreHandler(events: seq<Event>, handlers: seq<seq<Step>>, n: nat, id: Id)
    requires n < |events| && n < |handlers|
    ensures StuckBefore(events, handlers, n + 1, id)
       <==> StuckBefore(events, handlers, n, id) || (IdOf(Subject(events[n])) == id && Sticks(events[n], handlers[n]))
  {
    hide Sticks, IdOf, Subject;
  }

  lemma OtherStaysAsStuck(clusterName: string, e: Event, store: Store, steps: seq<Step>, after: Store, id: Id)
    requires Follows(Script(clusterName, e), store, steps, after) && id != IdOf(Subject(e))
    ensures Stuck(after, id) <==> Stuck(store, id)
  {
    hide Script, Follows, ResourceOf, IdOf;
    OtherUntouched(clusterName, e, store, steps, after, id, Role);
    OtherUntouched(clusterName, e, store, steps, after, id, ConfigMap);
  }

  /**
   No call need be unavailable for it: a deletion sticks also if the sink's creation never got as far as the deployment.
   Of handlers whose every call is answered these are all that stick.
   */
  lemma AnsweredHandlerSticksExactly(clusterName: string, e: Event, store: Store, steps: seq<Step>, after: Store)
    requires Follows(Script(clusterName, e), store, steps, after) && Ordered(store) && Undisturbed(steps)
    ensures Sticks(e, steps) <==>
            && e.Deleted?
            && ResourceOf(ConfigMap, IdOf(e.sink)) in store && ResourceOf(Deployment, IdOf(e.sink)) !in store
  {
    var id, n := IdOf(Subject(e)), |steps|;
    KindsAreResources(store, id, ConfigMap);
    KindsAreResources(store, id, Deployment);
    if e.Added? && n >= 2 {
      AnsweredCreationCompletes(clusterName, e.sink, store, steps, after);
    } else if e.Deleted? {
      AnsweredDeletion(clusterName, e.sink, store, steps, after);
    }
    hide Ordered, Script, ResourceOf, Follows;
  }

  lemma AnsweredCreationCompletes(clusterName: string, ms: MetricSink, store: Store, steps: seq<Step>, after: Store)
    requires Follows(Script(clusterName, Added(ms)), store, steps, after) && Ordered(store) && Undisturbed(steps) && |steps| >= 2
    ensures |steps| == 4
  {
    hide Ordered;
    var n := |steps|;
    CreatedRoleMeansNoCollision(clusterName, ms, store, steps, after, n - 1);
  }

  /** It gets past the config map exactly if that is there, and past the deployment exactly if that is, too. */
  lemma AnsweredDeletion(clusterName: string, ms: MetricSink, store: Store, steps: seq<Step>, after: Store)
    requires Follows(Script(clusterName, Deleted(ms)), store, steps, after) && Ordered(store) && Undisturbed(steps)
    ensures var kinds := Has(store, IdOf(ms));
            && (|steps| >= 2 <==> ConfigMap in kinds)
            && (|steps| >= 3 <==> ConfigMap in kinds && Deployment in kinds)
            && (|steps| >= 3 ==> |steps| == 4 && steps[3].reply == Done)
  {
    var script, id, n := Script(clusterName, Deleted(ms)), IdOf(ms), |steps|;
    AnsweredCall(clusterName, ms, store, steps, after, 0);
    if n >= 2 {
      AnsweredCall(clusterName, ms, store, steps, after, 1);
    }
    if n >= 3 {
      OrderInKinds(store, id);
      AnsweredCall(clusterName, ms, store, steps, after, 2);
    }
    if n == 4 {
      AnsweredCall(clusterName, ms, store, steps, after, 3);
    }
    hide Ordered, Has, StepFits, ObjectOf;
  }

  lemma OrderInKinds(store: Store, id: Id)
    requires Ordered(store)
    ensures ConfigMap in Has(store, id) || Deployment in Has(store, id) ==> Role in Has(store, id) && RoleBinding in Has(store, id)
  {
    assert OrderedAt(store, id.namespace, AppName(id.name));
  }

  /** A deletion's call is done exactly if its resource is there. */
  lemma AnsweredCall(clusterName: string, ms: MetricSink, store: Store, steps: seq<Step>, after: Store, i: nat)
    requires Follows(Script(clusterName, Deleted(ms)), store, steps, after) && Ordered(store) && Undisturbed(steps) && i < |steps|
    ensures Script(clusterName, Deleted(ms))[i].Delete? && i < 4
    ensures steps[i].reply == Done <==> Script(clusterName, Deleted(ms))[i].r.kind in Has(store, IdOf(ms))
  {
    var script, id := Script(clusterName, Deleted(ms)), IdOf(ms);
    Progress(clusterName, Deleted(ms), store, steps, after, i);
    ScriptKinds(clusterName, Deleted(ms), i);
    ScriptConcernsSubject(clusterName, Deleted(ms), i);
    assert StepFits(script, store, steps, i);
    DoneByKinds(script, store, steps, i, id);
    hide Ordered, Has, Follows;
  }

  /** A deployment without the config map it mounts. */
  predicate Orphaned(store: Store, id: Id) {
    ResourceOf(Deployment, id) in store && ResourceOf(ConfigMap, id) !in store
  }

  /** That is what a handler leaves exactly if it found it so, or deletes the config map of a deployment and fails to delete that. */
  lemma DeploymentLacksConfigMapExactly(clusterName: string, e: Event, store: Store, steps: seq<Step>, after: Store)
    requires Follows(Script(clusterName, e), store, steps, after) && Ordered(store)
    ensures var id := IdOf(Subject(e));
      Orphaned(after, id) <==> Orphaned(store, id) || (e.Deleted? && ResourceOf(Deployment, id) in store && |steps| == 2)
  {
    var id, n := IdOf(Subject(e)), |steps|;
    OrphanedInKinds(store, id);
    OrphanedInKinds(after, id);
    OrderInKinds(store, id);
    KindsAreResources(store, id, Deployment);
    StuckInKinds(store, id);
    if Stuck(store, id) {
      StuckMakesNoProgress(clusterName, e, store, steps, after);
      StuckSinkIsLeftAlone(clusterName, e, store, steps, after, id, Deployment);
      StuckSinkIsLeftAlone(clusterName, e, store, steps, after, id, ConfigMap);
    } else {
      FreshlyOrphaned(clusterName, e, store, steps, after);
    }
    hide Ordered, Has, Follows, Script, Stuck;
  }

  lemma FreshlyOrphaned(clusterName: string, e: Event, store: Store, steps: seq<Step>, after: Store)
    requires Follows(Script(clusterName, e), store, steps, after) && Ordered(store) && !Stuck(store, IdOf(Subject(e)))
    ensures var id := IdOf(Subject(e));
      Deployment in Has(after, id) && ConfigMap !in Has(after, id) <==> e.Deleted? && Deployment in Has(store, id) && |steps| == 2
  {
    hide MetricSinkConfig, OwnerOf, AppName;
    var id, n := IdOf(Subject(e)), |steps|;
    if n > 0 {
      Progress(clusterName, e, store, steps, after, n - 1);
      if steps[n - 1].reply == Done {
        Progress(clusterName, e, store, steps, after, n);
      } else {
        assert StepFits(Script(clusterName, e), store, steps, n - 1);
      }
    }
    StuckInKinds(store, id);
    OrderInKinds(store, id);
    hide Ordered, StepFits, Stuck, Has;
  }

  lemma OrphanedInKinds(store: Store, id: Id)
    ensures Orphaned(store, id) <==> Deployment in Has(store, id) && ConfigMap !in Has(store, id)
  {
    KindsAreResources(store, id, Deployment);
    KindsAreResources(store, id, ConfigMap);
  }

  /** One failed call is enough. */
  lemma DeploymentCanLackConfigMap(clusterName: string, ms: MetricSink, store: Store) returns (steps: seq<Step>, after: Store)
    requires Has(store, IdOf(ms)) == ALL
    ensures Follows(Script(clusterName, Deleted(ms)), store, steps, after) && Orphaned(after, IdOf(ms))
  {
    KindsAreResources(store, IdOf(ms), ConfigMap);
    KindsAreResources(store, IdOf(ms), Deployment);
    after := store - {ResourceOf(ConfigMap, IdOf(ms))};
    steps := [Step(store, DeleteOf(ConfigMap, ms), Done, after), Step(after, DeleteOf(Deployment, ms), Unavailable, after)];
  }

  lemma StuckInKinds(store: Store, id: Id)
    ensures Stuck(store, id) <==> Role in Has(store, id) && ConfigMap !in Has(store, id)
  {
    assert forall kind | kind in ALL :: kind in Has(store, id) <==> ResourceOf(kind, id) in store;
  }

  lemma OtherUntouched(clusterName: string, e: Event, store: Store, steps: seq<Step>, after: Store, id: Id, kind: Kind)
    requires Follows(Script(clusterName, e), store, steps, after) && id != IdOf(Subject(e))
    ensures Agree(store, after, ResourceOf(kind, id))
  {
    hide Script, Subject;
    if ResourceOf(kind, id) == ResourceOf(kind, IdOf(Subject(e))) {
      ResourceTellsSink(kind, id, IdOf(Subject(e)));
    }
    OthersAreUntouched(clusterName, e, store, steps, after, |steps|, ResourceOf(kind, id));
  }

  lemma DoneByKinds(script: seq<Call>, store: Store, steps: seq<Step>, i: nat, id: Id)
    requires i < |steps| <= |script| && StepFits(script, store, steps, i) && Concerns(script[i], id) && steps[i].reply != Unavailable
    ensures steps[i].reply == Done <==> match script[i]
                                         case Create(r, _) => r.kind !in Has(StoreAt(store, steps, i), id)
                                         case Update(r, _) => r.kind in Has(StoreAt(store, steps, i), id)
                                         case Delete(r) => r.kind in Has(StoreAt(store, steps, i), id)
                                         case DeletePods(_, _) => true
  {
    var call, now := script[i], StoreAt(store, steps, i);
    if !call.DeletePods? {
      KindsAreResources(now, id, call.r.kind);
    }
  }

  lemma EmptyIsOrdered()
    ensures Ordered(map[])
  {
  }
}
