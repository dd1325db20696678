/** The promise hook that feeds the recorder's dependency graph
    (src/replayio/replayio-commands.cc). Each promise, named by its
    persistent object id, gets a node when it is created and another when
    it is settled; running a reaction begins an execution of the settled
    node, or of the creation node when the promise has not settled.
    `gPromiseDependencyGraphDataMap` is a map field here, keyed by the ids
    that `RecordReplayObjectId` hands out; the recorder's graph calls are
    kept as a log of events, and the node id that `NewDependencyGraphNode`
    answers is passed in. */
module PromiseGraph {
  import opened Wrappers
  import opened ObjectIds

  /** `PromiseHookType`. */
  datatype HookType = Init | Resolve | Before | After

  /** `PromiseDependencyGraphData`; 0 means no node. */
  datatype PromiseNodes = PromiseNodes(newNode: int, settledNode: int)

  const NoNodes := PromiseNodes(0, 0)

  /** A call into the recorder's dependency graph. */
  datatype GraphEvent =
    | NewNode(node: int, kind: string)
    | Edge(source: int, target: int, kind: string)
    | BeginExecution(node: int)
    | EndExecution

  /** `RecordReplayShouldCallOnPromiseHook`: on the main thread with the
      graph enabled, always when replaying, and while recording only when
      tracked objects are asserted (the hook then hands out their ids). */
  predicate ShouldCallOnPromiseHook(enableDependencyGraph: bool, isReplaying: bool,
                                    assertTrackedObjects: bool, onMainThread: bool): (r: bool)
    ensures r ==> enableDependencyGraph && onMainThread
    ensures isReplaying ==> (r <==> enableDependencyGraph && onMainThread)
    ensures !isReplaying ==> (r <==> enableDependencyGraph && onMainThread && assertTrackedObjects)
  {
    enableDependencyGraph && (isReplaying || assertTrackedObjects) && onMainThread
  }

  /** The node a reaction of the promise executes under. */
  function ExecutionNode(data: PromiseNodes): (node: int)
    ensures data.settledNode != 0 ==> node == data.settledNode
    ensures data.settledNode == 0 ==> node == data.newNode
  {
    if data.settledNode != 0 then data.settledNode else data.newNode
  }

  /** What the hook does to the promise's own record; `node` is the id the
      recorder gives a node created by this step. Creating a second
      creation node fails the CHECK. */
  function Transition(data: PromiseNodes, hook: HookType, node: int): (r: Result<PromiseNodes>)
    ensures hook == Init ==> (r.Ok? <==> data.newNode == 0)
    ensures hook == Init && r.Ok? ==> r.value == PromiseNodes(node, data.settledNode)
    ensures hook == Resolve ==> r.Ok?
    ensures hook == Resolve && (data.newNode == 0 || data.settledNode != 0) ==> r.value == data
    ensures hook == Resolve && data.newNode != 0 && data.settledNode == 0 ==>
              r.value == PromiseNodes(data.newNode, node)
    ensures hook == Before || hook == After ==> r == Ok(data)
  {
    match hook
    case Init => if data.newNode != 0 then Crash("CHECK failed: !data.new_node_id")
                 else Ok(data.(newNode := node))
    case Resolve => if data.newNode == 0 || data.settledNode != 0 then Ok(data)
                    else Ok(data.(settledNode := node))
    case Before => Ok(data)
    case After => Ok(data)
  }

  /** A promise is settled only after it was created. */
  predicate Ordered(data: PromiseNodes) {
    data.settledNode != 0 ==> data.newNode != 0
  }

  /** Every step keeps a record ordered, given that the recorder's node ids
      are not 0; and once settled, a record never changes again. */
  lemma TransitionKeepsOrder(data: PromiseNodes, hook: HookType, node: int)
    requires Ordered(data) && node != 0
    requires Transition(data, hook, node).Ok?
    ensures Ordered(Transition(data, hook, node).value)
    ensures data.settledNode != 0 ==> Transition(data, hook, node).value == data
  {
  }

  /** The life of a promise: created, settled, then run; a second creation
      fails and a second settling changes nothing. */
  lemma PromiseLifecycle(created: int, settled: int, again: int)
    requires created != 0 && settled != 0
    ensures Transition(NoNodes, Init, created) == Ok(PromiseNodes(created, 0))
    ensures Transition(PromiseNodes(created, 0), Init, again).Crash?
    ensures Transition(PromiseNodes(created, 0), Resolve, settled) == Ok(PromiseNodes(created, settled))
    ensures Transition(PromiseNodes(created, settled), Resolve, again) == Ok(PromiseNodes(created, settled))
    ensures ExecutionNode(PromiseNodes(created, 0)) == created
    ensures ExecutionNode(PromiseNodes(created, settled)) == settled
  {
  }

  /** A promise that was never created is not settled by `Resolve`. */
  lemma ResolveBeforeInit(node: int)
    ensures Transition(NoNodes, Resolve, node) == Ok(NoNodes)
  {
  }

  class PromiseHook {
    var nodes: map<int, PromiseNodes>
    var events: seq<GraphEvent>

    constructor()
      ensures nodes == map[] && events == []
    {
      nodes := map[];
      events := [];
    }

    /** `GetOrCreatePromiseDependencyGraphData`: the object gets its
        persistent id from `RecordReplayObjectId` (creation allowed), and the
        record under that id is returned, inserted empty on first use. */
    method GetOrCreate(ids: ObjectIdAllocator, cx: Context, obj: ObjectRef, apiId: int,
                       assertTrackedObjects: bool) returns (key: int, data: PromiseNodes)
      requires ids.Valid()
      modifies this, ids
      ensures ids.Valid()
      ensures var g := GrantId(old(ids.maps), old(ids.nextId), old(ids.assertions), cx, obj, apiId,
                               assertTrackedObjects);
              key == g.id && ids.maps == g.maps && ids.nextId == g.nextId && ids.assertions == g.assertions
      ensures key in old(nodes) ==> nodes == old(nodes) && data == nodes[key]
      ensures key !in old(nodes) ==> nodes == old(nodes)[key := NoNodes] && data == NoNodes
      ensures events == old(events)
    {
      key := ids.ObjectId(cx, obj, true, apiId, true, assertTrackedObjects);
      if key !in nodes {
        nodes := nodes[key := NoNodes];
      }
      data := nodes[key];
    }

    /** `RecordReplayOnPromiseHook`. `promise` and `parent` are the promise
        and its parent (`None` when the parent is undefined), each with the
        answer of the API id callback; `node` is the id of a node the
        recorder creates during this call. A false `ok` is a failed CHECK.
        The promise's id is granted first; the parent's only on a
        successful `Init`, after the promise's node was recorded. */
    method OnPromiseHook(hook: HookType, ids: ObjectIdAllocator, cx: Context,
                         promise: ObjectRef, promiseApiId: int, parent: Option<ObjectRef>, parentApiId: int,
                         node: int, enableDependencyGraph: bool, isReplaying: bool,
                         assertTrackedObjects: bool, onMainThread: bool) returns (ok: bool)
      requires ids.Valid()
      modifies this, ids
      ensures ids.Valid()
      ensures var enabled := ShouldCallOnPromiseHook(enableDependencyGraph, isReplaying,
                                                     assertTrackedObjects, onMainThread);
              !enabled ==> && !ok && nodes == old(nodes) && events == old(events)
                           && ids.maps == old(ids.maps) && ids.nextId == old(ids.nextId)
                           && ids.assertions == old(ids.assertions)
      ensures var enabled := ShouldCallOnPromiseHook(enableDependencyGraph, isReplaying,
                                                     assertTrackedObjects, onMainThread);
              enabled ==>
                var g := GrantId(old(ids.maps), old(ids.nextId), old(ids.assertions), cx, promise,
                                 promiseApiId, assertTrackedObjects);
                var data := if g.id in old(nodes) then old(nodes)[g.id] else NoNodes;
                var step := Transition(data, hook, node);
                var withParent := step.Ok? && hook == Init && parent.Some?;
                var last := if withParent
                            then GrantId(g.maps, g.nextId, g.assertions, cx, parent.value, parentApiId,
                                         assertTrackedObjects)
                            else g;
                && (ok <==> step.Ok?)
                && (ok ==> g.id in nodes && nodes[g.id] == step.value)
                && (ok ==> events == old(events)
                                     + StepEvents(data, hook, node, if withParent then Some(last.id) else None, nodes))
                && ids.maps == last.maps && ids.nextId == last.nextId && ids.assertions == last.assertions
                && nodes.Keys == old(nodes).Keys + {g.id} + (if withParent then {last.id} else {})
                && (forall p :: p in old(nodes) && (!ok || p != g.id) ==> nodes[p] == old(nodes)[p])
                && (forall p :: p in nodes && p !in old(nodes) && (!ok || p != g.id) ==> nodes[p] == NoNodes)
    {
      if !ShouldCallOnPromiseHook(enableDependencyGraph, isReplaying, assertTrackedObjects, onMainThread) {
        return false;
      }
      var key, data := GetOrCreate(ids, cx, promise, promiseApiId, assertTrackedObjects);
      match hook {
      case Init =>
        ok := InitStep(ids, cx, key, data, parent, parentApiId, node, assertTrackedObjects);
      case Resolve =>
        ResolveStep(key, data, node);
        ok := true;
      case Before =>
        events := events + [BeginExecution(ExecutionNode(data))];
        ok := true;
      case After =>
        events := events + [EndExecution];
        ok := true;
      }
    }

    /** The `kInit` case: a second creation fails the CHECK; otherwise the
        promise gets its creation node and, when there is a parent, the
        parent's record is fetched (granting the parent an id) and linked
        if it was created. */
    method InitStep(ids: ObjectIdAllocator, cx: Context, key: int, data: PromiseNodes,
                    parent: Option<ObjectRef>, parentApiId: int, node: int, assertTrackedObjects: bool)
      returns (ok: bool)
      requires ids.Valid() && key in nodes && nodes[key] == data
      modifies this, ids
      ensures ids.Valid()
      ensures ok <==> data.newNode == 0
      ensures var linked := ok && parent.Some?;
              var last := if linked
                          then GrantId(old(ids.maps), old(ids.nextId), old(ids.assertions), cx, parent.value,
                                       parentApiId, assertTrackedObjects)
                          else Grant(key, old(ids.maps), old(ids.nextId), old(ids.assertions));
              var created := if ok then old(nodes)[key := data.(newNode := node)] else old(nodes);
              && ids.maps == last.maps && ids.nextId == last.nextId && ids.assertions == last.assertions
              && nodes == (if last.id in created then created else created[last.id := NoNodes])
              && (ok ==> events == old(events)
                                   + StepEvents(data, Init, node, if linked then Some(last.id) else None, nodes))
              && (!ok ==> events == old(events))
    {
      if data.newNode != 0 {
        return false;
      }
      nodes := nodes[key := data.(newNode := node)];
      events := events + [NewNode(node, "{\"kind\":\"newPromise\"}")];
      if parent.Some? {
        var parentKey, parentData := GetOrCreate(ids, cx, parent.value, parentApiId, assertTrackedObjects);
        if parentData.newNode != 0 {
          events := events + [Edge(parentData.newNode, node, "{\"kind\":\"parentPromise\"}")];
        }
      }
      ok := true;
    }

    /** The `kResolve` case: a created, unsettled promise gets its settled
        node and an edge from its creation node; any other does nothing. */
    method ResolveStep(key: int, data: PromiseNodes, node: int)
      requires key in nodes && nodes[key] == data
      modifies this
      ensures nodes == old(nodes)[key := Transition(data, Resolve, node).value]
      ensures events == old(events) + StepEvents(data, Resolve, node, None, nodes)
    {
      if data.newNode == 0 || data.settledNode != 0 {
        return;
      }
      nodes := nodes[key := data.(settledNode := node)];
      events := events + [NewNode(node, "{\"kind\":\"promiseSettled\"}"),
                          Edge(data.newNode, node, "{\"kind\":\"basePromise\"}")];
    }
  }

  /** The graph calls one successful hook makes; `after` is the record map
      once the hook is done, where a parent's creation node is read. */
  function StepEvents(data: PromiseNodes, hook: HookType, node: int, parent: Option<int>,
                      after: map<int, PromiseNodes>): seq<GraphEvent>
  {
    match hook
    case Init =>
      [NewNode(node, "{\"kind\":\"newPromise\"}")]
      + (if parent.Some? && parent.value in after && after[parent.value].newNode != 0
         then [Edge(after[parent.value].newNode, node, "{\"kind\":\"parentPromise\"}")] else [])
    case Resolve =>
      if data.newNode == 0 || data.settledNode != 0 then []
      else [NewNode(node, "{\"kind\":\"promiseSettled\"}"), Edge(data.newNode, node, "{\"kind\":\"basePromise\"}")]
    case Before => [BeginExecution(ExecutionNode(data))]
    case After => [EndExecution]
  }

  /** A parent edge always starts at the parent's creation node and ends at
      the new promise's node, and there is none when the parent has no
      creation node. */
  lemma ParentEdgeOnlyFromCreatedParent(node: int, parent: int, after: map<int, PromiseNodes>)
    ensures var evs := StepEvents(NoNodes, Init, node, Some(parent), after);
            && (|evs| == 2 <==> parent in after && after[parent].newNode != 0)
            && (|evs| == 2 ==> evs[1] == Edge(after[parent].newNode, node, "{\"kind\":\"parentPromise\"}"))
  {
  }
}
