/** Persistent object ids (src/replayio/replayio-commands.cc). Objects used
    in recording assertions, and promises in the dependency graph, get an id
    that is the same when recording and when replaying. The ids live in one
    weak map per context (`gRecordReplayObjectIds`), are counted up from
    `gNextObjectId = 1`, and are looked up in every map, since an object may
    belong to another context than the current one.
    Objects and contexts are given by identity; the weak maps are plain maps
    here, so an entry never disappears (garbage collection is not modelled). */
module ObjectIds {
  import opened Wrappers

  type ObjectRef = nat
  type Context = nat

  /** A `ContextObjectIdMap`: a context and its id map. */
  datatype ContextIds = ContextIds(context: Context, ids: map<ObjectRef, int>)

  /** A recording assertion made when `gRecordReplayAssertTrackedObjects` is
      set: "JS ReuseObjectId %d" or "JS NewObjectId %d". */
  datatype IdAssertion = ReuseObjectId(id: int) | NewObjectId(id: int)

  /** The id of `obj` in the first map that holds it. */
  function Lookup(maps: seq<ContextIds>, obj: ObjectRef): (r: Option<int>)
    ensures r.None? <==> forall i :: 0 <= i < |maps| ==> obj !in maps[i].ids
    ensures r.Some? ==> exists i :: 0 <= i < |maps| && obj in maps[i].ids && maps[i].ids[obj] == r.value
  {
    if maps == [] then None
    else if obj in maps[0].ids then Some(maps[0].ids[obj])
    else
      Lookup(maps[1..], obj)
  }

  /** The index of the first map belonging to `cx`. */
  function MapOfContext(maps: seq<ContextIds>, cx: Context): (r: Option<nat>)
    ensures r.None? <==> forall i :: 0 <= i < |maps| ==> maps[i].context != cx
    ensures r.Some? ==> r.value < |maps| && maps[r.value].context == cx
    ensures r.Some? ==> forall i :: 0 <= i < r.value ==> maps[i].context != cx
  {
    if maps == [] then None
    else if maps[0].context == cx then Some(0)
    else
      var rest := MapOfContext(maps[1..], cx);
      if rest.None? then None else Some(rest.value + 1)
  }

  /** The maps after `obj` is given `id` in the map of `cx`, which
      `GetObjectIdMapForContext` creates when `cx` has none. */
  function WithId(maps: seq<ContextIds>, cx: Context, obj: ObjectRef, id: int): seq<ContextIds> {
    var k := MapOfContext(maps, cx);
    if k.None? then maps + [ContextIds(cx, map[obj := id])]
    else maps[k.value := maps[k.value].(ids := maps[k.value].ids[obj := id])]
  }

  /** Every id handed out lies in `[1, next)`. */
  ghost predicate IdsBelow(maps: seq<ContextIds>, next: int) {
    forall i, o :: 0 <= i < |maps| && o in maps[i].ids ==> 1 <= maps[i].ids[o] < next
  }

  /** No two entries, in the same map or in two maps, share an id. */
  ghost predicate IdsDistinct(maps: seq<ContextIds>) {
    forall i, j, o, p ::
      (0 <= i < |maps| && 0 <= j < |maps| && o in maps[i].ids && p in maps[j].ids
       && maps[i].ids[o] == maps[j].ids[p]) ==> i == j && o == p
  }

  /** Each context has at most one map. */
  ghost predicate ContextsDistinct(maps: seq<ContextIds>) {
    forall i, j :: 0 <= i < j < |maps| ==> maps[i].context != maps[j].context
  }

  ghost predicate Consistent(maps: seq<ContextIds>, next: int) {
    next >= 1 && IdsBelow(maps, next) && IdsDistinct(maps) && ContextsDistinct(maps)
  }

  /** Giving an object that has no id the next id keeps the maps consistent
      with the counter moved on by one: fresh ids never collide. */
  lemma WithIdKeepsConsistent(maps: seq<ContextIds>, next: int, cx: Context, obj: ObjectRef)
    requires Consistent(maps, next)
    requires Lookup(maps, obj).None?
    ensures Consistent(WithId(maps, cx, obj, next), next + 1)
  {
    var after := WithId(maps, cx, obj, next);
    var at := WithIdEntries(maps, cx, obj, next);
    assert IdsBelow(after, next + 1);
    WithIdKeepsDistinct(maps, next, cx, obj);
  }

  /** The fresh id is above every old one, so it collides with none. */
  lemma WithIdKeepsDistinct(maps: seq<ContextIds>, next: int, cx: Context, obj: ObjectRef)
    requires IdsBelow(maps, next) && IdsDistinct(maps)
    requires Lookup(maps, obj).None?
    ensures IdsDistinct(WithId(maps, cx, obj, next))
  {
    var after := WithId(maps, cx, obj, next);
    var at := WithIdEntries(maps, cx, obj, next);
    forall i, j, o, p | 0 <= i < |after| && 0 <= j < |after| && o in after[i].ids && p in after[j].ids
                        && after[i].ids[o] == after[j].ids[p]
      ensures i == j && o == p
    {
    }
  }

  /** Entry by entry, `WithId` adds the one entry `obj := id` in map `at`
      (a new map at the end when `cx` had none) and keeps every other
      entry and every context. */
  lemma WithIdEntries(maps: seq<ContextIds>, cx: Context, obj: ObjectRef, id: int) returns (at: nat)
    ensures var after := WithId(maps, cx, obj, id);
            && at <= |maps| && |after| == (if at == |maps| then |maps| + 1 else |maps|)
            && at < |after| && obj in after[at].ids && after[at].ids[obj] == id
            && (forall i, o :: 0 <= i < |after| && o in after[i].ids ==>
                 (i == at && o == obj) || (i < |maps| && o in maps[i].ids && after[i].ids[o] == maps[i].ids[o]))
            && (forall i :: 0 <= i < |maps| ==> after[i].context == maps[i].context)
            && (at == |maps| ==> after[at].context == cx && forall i :: 0 <= i < |maps| ==> maps[i].context != cx)
  {
    var k := MapOfContext(maps, cx);
    at := if k.None? then |maps| else k.value;
  }

  /** Once given an id, an object is found with it; every other object is
      found with the id it had. */
  lemma WithIdLookup(maps: seq<ContextIds>, next: int, cx: Context, obj: ObjectRef, other: ObjectRef)
    requires Lookup(maps, obj).None?
    requires other != obj
    ensures Lookup(WithId(maps, cx, obj, next), obj) == Some(next)
    ensures Lookup(WithId(maps, cx, obj, next), other) == Lookup(maps, other)
  {
    var after := WithId(maps, cx, obj, next);
    var k := MapOfContext(maps, cx);
    var at := if k.None? then |maps| else k.value;
    assert obj in after[at].ids && after[at].ids[obj] == next;
    LookupFirst(after, obj, at);
    assert forall i :: 0 <= i < |maps| ==> (other in after[i].ids <==> other in maps[i].ids);
    assert forall i :: 0 <= i < |maps| && other in maps[i].ids ==> after[i].ids[other] == maps[i].ids[other];
    LookupAgrees(maps, after, other);
  }

  /** The object's first map decides the lookup. */
  lemma {:induction false} LookupFirst(maps: seq<ContextIds>, obj: ObjectRef, at: nat)
    requires at < |maps| && obj in maps[at].ids
    requires forall i :: 0 <= i < at ==> obj !in maps[i].ids
    ensures Lookup(maps, obj) == Some(maps[at].ids[obj])
  {
    if at > 0 {
      LookupFirst(maps[1..], obj, at - 1);
    }
  }

  /** A lookup only sees the maps holding the object, so a longer list of
      maps that agrees on them gives the same answer. */
  lemma {:induction false} LookupAgrees(maps: seq<ContextIds>, after: seq<ContextIds>, obj: ObjectRef)
    requires |maps| <= |after|
    requires forall i :: 0 <= i < |maps| ==> (obj in after[i].ids <==> obj in maps[i].ids)
    requires forall i :: 0 <= i < |maps| && obj in maps[i].ids ==> after[i].ids[obj] == maps[i].ids[obj]
    requires forall i :: |maps| <= i < |after| ==> obj !in after[i].ids
    ensures Lookup(after, obj) == Lookup(maps, obj)
  {
    if maps != [] {
      LookupAgrees(maps[1..], after[1..], obj);
    }
  }

  /** The search of `RecordReplayObjectId` through every map, in order. */
  method FindId(maps: seq<ContextIds>, obj: ObjectRef) returns (r: Option<int>)
    ensures r == Lookup(maps, obj)
  {
    var i := 0;
    while i < |maps|
      invariant 0 <= i <= |maps|
      invariant forall j :: 0 <= j < i ==> obj !in maps[j].ids
    {
      if obj in maps[i].ids {
        LookupFirst(maps, obj, i);
        return Some(maps[i].ids[obj]);
      }
      i := i + 1;
    }
    return None;
  }

  /** `GetObjectIdMapForContext`, which finds the map of `cx` or appends a
      new one, followed by storing `obj := id` in it. */
  method StoreId(maps: seq<ContextIds>, cx: Context, obj: ObjectRef, id: int) returns (after: seq<ContextIds>)
    ensures after == WithId(maps, cx, obj, id)
  {
    var k := 0;
    while k < |maps|
      invariant 0 <= k <= |maps|
      invariant forall j :: 0 <= j < k ==> maps[j].context != cx
    {
      if maps[k].context == cx {
        break;
      }
      k := k + 1;
    }
    if k == |maps| {
      after := maps + [ContextIds(cx, map[obj := id])];
    } else {
      assert MapOfContext(maps, cx) == Some(k);
      after := maps[k := maps[k].(ids := maps[k].ids[obj := id])];
    }
  }

  /** `RecordReplayTrackThisObjectAssignment`: whether a `this` object that
      is assigned `property` gets a persistent id. */
  predicate TrackThisObjectAssignment(assertTrackedObjects: bool, trackObjects: bool,
                                      isReplaying: bool, property: string)
    ensures (assertTrackedObjects || trackObjects)
            ==> TrackThisObjectAssignment(assertTrackedObjects, trackObjects, isReplaying, property)
  {
    assertTrackedObjects || trackObjects || (isReplaying && property == "alternate")
  }

  /** Without either tracking flag, only objects that may be React fibers
      are tracked, and only when replaying. */
  lemma TrackedObjectsByDefault(isReplaying: bool, property: string)
    ensures TrackThisObjectAssignment(false, false, isReplaying, property) <==> isReplaying && property == "alternate"
    ensures !TrackThisObjectAssignment(false, false, false, property)
  {
  }

  /** An id handed out, together with the allocator's state afterwards. */
  datatype Grant = Grant(id: int, maps: seq<ContextIds>, nextId: int, assertions: seq<IdAssertion>)

  /** `RecordReplayObjectId` for an object, with creation allowed: the API
      id, else the known id (asserted as reused), else the next id, stored
      in the map of `cx` (asserted as new). */
  function GrantId(maps: seq<ContextIds>, nextId: int, assertions: seq<IdAssertion>, cx: Context,
                   obj: ObjectRef, apiId: int, assertTrackedObjects: bool): (g: Grant)
    ensures apiId != 0 ==> g.id == apiId && g.maps == maps && g.nextId == nextId
  {
    if apiId != 0 then Grant(apiId, maps, nextId, assertions)
    else if Lookup(maps, obj).Some? then
      var id := Lookup(maps, obj).value;
      Grant(id, maps, nextId, assertions + (if assertTrackedObjects then [ReuseObjectId(id)] else []))
    else
      Grant(nextId, WithId(maps, cx, obj, nextId), nextId + 1,
            assertions + (if assertTrackedObjects then [NewObjectId(nextId)] else []))
  }

  /** The counter moves by at most one, and only to hand out its old value;
      the assertion log only grows, by at most one entry. */
  lemma GrantIdBounds(maps: seq<ContextIds>, nextId: int, assertions: seq<IdAssertion>, cx: Context,
                      obj: ObjectRef, apiId: int, assertTrackedObjects: bool)
    ensures var g := GrantId(maps, nextId, assertions, cx, obj, apiId, assertTrackedObjects);
            && nextId <= g.nextId <= nextId + 1
            && (g.nextId == nextId + 1 ==> g.id == nextId && Lookup(maps, obj).None?)
            && assertions <= g.assertions && |g.assertions| <= |assertions| + 1
  {
  }

  /** Granting keeps the maps consistent, and an object without an API id
      that is asked again, from any context, gets the same id and no new
      entry: persistent ids are stable. */
  lemma GrantIdIsStable(maps: seq<ContextIds>, nextId: int, assertions: seq<IdAssertion>, cx: Context,
                        cx2: Context, obj: ObjectRef, assertTrackedObjects: bool)
    requires Consistent(maps, nextId)
    ensures var g := GrantId(maps, nextId, assertions, cx, obj, 0, assertTrackedObjects);
            var again := GrantId(g.maps, g.nextId, g.assertions, cx2, obj, 0, assertTrackedObjects);
            && Consistent(g.maps, g.nextId)
            && Lookup(g.maps, obj) == Some(g.id)
            && again.id == g.id && again.maps == g.maps && again.nextId == g.nextId
  {
    if Lookup(maps, obj).None? {
      WithIdKeepsConsistent(maps, nextId, cx, obj);
      WithIdLookup(maps, nextId, cx, obj, obj + 1);
    }
  }

  class ObjectIdAllocator {
    /** `gNextObjectId`. */
    var nextId: int
    /** `gRecordReplayObjectIds`. */
    var maps: seq<ContextIds>
    /** The recording assertions made so far. */
    var assertions: seq<IdAssertion>

    ghost predicate Valid()
      reads this
    {
      Consistent(maps, nextId)
    }

    constructor()
      ensures Valid() && nextId == 1 && maps == [] && assertions == []
    {
      nextId := 1;
      maps := [];
      assertions := [];
    }

    /** `RecordReplayObjectId`. `isObject` says whether the value is an
        object and `apiId` is what `gGetAPIObjectIdCallback` answers (0 when
        there is no callback). An object with an id keeps it; a new one gets
        `nextId` in the map of `cx` when `allowCreate` is set. */
    method ObjectId(cx: Context, obj: ObjectRef, isObject: bool, apiId: int, allowCreate: bool,
                    assertTrackedObjects: bool) returns (id: int)
      requires Valid()
      modifies this
      ensures Valid()
      ensures var created := isObject && apiId == 0 && Lookup(old(maps), obj).None? && allowCreate;
              && id == (if !isObject then 0
                        else if apiId != 0 then apiId
                        else if Lookup(old(maps), obj).Some? then Lookup(old(maps), obj).value
                        else if !allowCreate then 0
                        else old(nextId))
              && nextId == old(nextId) + (if created then 1 else 0)
              && maps == (if created then WithId(old(maps), cx, obj, old(nextId)) else old(maps))
              && assertions == old(assertions)
                   + (if !assertTrackedObjects || !isObject || apiId != 0 then []
                      else if Lookup(old(maps), obj).Some? then [ReuseObjectId(id)]
                      else if created then [NewObjectId(id)]
                      else [])
    {
      if !isObject {
        return 0;
      }
      if apiId != 0 {
        return apiId;
      }
      var found := FindId(maps, obj);
      if found.Some? {
        id := found.value;
        if assertTrackedObjects {
          assertions := assertions + [ReuseObjectId(id)];
        }
        return;
      }
      if !allowCreate {
        return 0;
      }
      id := nextId;
      nextId := nextId + 1;
      if assertTrackedObjects {
        assertions := assertions + [NewObjectId(id)];
      }
      WithIdKeepsConsistent(maps, id, cx, obj);
      maps := StoreId(maps, cx, obj, id);
    }
  }
}
