/** Child-session capture: a breadth-first walk of the reference graph between sessions, bounded in
    depth and by a visited set, in which exporting a session may fail. */
module SessionCapture {
  type Id = string

  const MAX_SESSION_DEPTH: nat := 5

  datatype TaskState = NoState | Undecodable | Metadata(sessionId: Id)
  datatype Part = BadPart | Part(tool: string, state: TaskState)

  /** What asking for one session yields; the first three are the ways to fail. */
  datatype Export = Unavailable | Malformed | Unwritable | Written(messages: seq<seq<Part>>)

  // ---------------------------------------------------------------- DiscoverChildren

  predicate References(p: Part) {
    p.Part? && p.tool == "task" && p.state.Metadata? && p.state.sessionId != ""
  }

  /** Referenced ids in first-appearance order. */
  function Discovered(parts: seq<Part>): seq<Id> {
    if parts == [] then []
    else
      var earlier, p := Discovered(parts[..|parts| - 1]), parts[|parts| - 1];
      if References(p) && p.state.sessionId !in earlier then earlier + [p.state.sessionId] else earlier
  }

  predicate Distinct(ids: seq<Id>) {
    forall i, j :: 0 <= i < j < |ids| ==> ids[i] != ids[j]
  }

  lemma {:induction false} DiscoveredIsSound(parts: seq<Part>)
    ensures Distinct(Discovered(parts))
    ensures forall id :: id in Discovered(parts) <==>
              exists p :: p in parts && References(p) && p.state.sessionId == id
  {
    if parts != [] {
      var front, last := parts[..|parts| - 1], parts[|parts| - 1];
      DiscoveredIsSound(front);
      assert forall p :: p in parts <==> p in front || p == last;
    }
  }

  method DiscoverChildren(parts: seq<Part>) returns (refs: seq<Id>)
    ensures refs == Discovered(parts)
  {
    refs := [];
    var seen: set<Id> := {};
    for i := 0 to |parts|
      invariant refs == Discovered(parts[..i])
      invariant forall id :: id in seen <==> id in refs
    {
      var p := parts[i];
      assert parts[..i + 1][..i] == parts[..i];
      if p.BadPart? || p.tool != "task" || !p.state.Metadata? {
        continue;
      }
      var id := p.state.sessionId;
      if id == "" || id in seen {
        continue;
      }
      seen := seen + {id};
      refs := refs + [id];
    }
    assert parts[..|parts|] == parts;
  }

  function Flatten(messages: seq<seq<Part>>): seq<Part> {
    if messages == [] then [] else Flatten(messages[..|messages| - 1]) + messages[|messages| - 1]
  }

  /** discoverChildrenInExport: every message's raw parts, re-presented as one event list. */
  method DiscoverInExport(messages: seq<seq<Part>>) returns (refs: seq<Id>)
    ensures refs == Discovered(Flatten(messages))
  {
    var parts: seq<Part> := [];
    for i := 0 to |messages|
      invariant parts == Flatten(messages[..i])
    {
      assert messages[..i + 1][..i] == messages[..i];
      parts := parts + messages[i];
    }
    assert messages[..|messages|] == messages;
    refs := DiscoverChildren(parts);
  }

  /** The sessions an export references are those named by a part of any of its messages. */
  lemma {:induction false} ReferencedInAnyMessage(messages: seq<seq<Part>>, id: Id)
    ensures id in Discovered(Flatten(messages)) <==>
            exists m, p :: m in messages && p in m && References(p) && p.state.sessionId == id
  {
    hide References, Discovered;
    DiscoveredIsSound(Flatten(messages));
    forall p ensures p in Flatten(messages) <==> exists m :: m in messages && p in m {
      PartOfSomeMessage(messages, p);
    }
  }

  lemma {:induction false} PartOfSomeMessage(messages: seq<seq<Part>>, p: Part)
    ensures p in Flatten(messages) <==> exists m :: m in messages && p in m
  {
    if messages != [] {
      var n := |messages| - 1;
      PartOfSomeMessage(messages[..n], p);
      assert messages == messages[..n] + [messages[n]];
    }
  }

  // ---------------------------------------------------------------- the reference graph

  /** Ids that could escape the sessions directory are refused without asking for an export. */
  predicate Unsafe(id: Id) {
    '/' in id || exists i :: 0 <= i < |id| - 1 && id[i] == '.' && id[i + 1] == '.'
  }

  /** The refused ids are those with a path separator or with two dots in a row. */
  lemma UnsafeIff(id: Id)
    ensures Unsafe(id) <==> '/' in id || exists a, b :: id == a + ".." + b
  {
    if i :| 0 <= i < |id| - 1 && id[i] == '.' && id[i + 1] == '.' {
      assert id == id[..i] + ".." + id[i + 2..];
    }
    if a, b :| id == a + ".." + b {
      assert id[|a|] == '.' && id[|a| + 1] == '.';
    }
  }

  predicate Captured(exports: Id -> Export, id: Id) {
    !Unsafe(id) && exports(id).Written?
  }

  function Children(exports: Id -> Export, id: Id): seq<Id>
    requires Captured(exports, id)
  {
    Discovered(Flatten(exports(id).messages))
  }

  /** A chain of references that starts in the event stream, never touches the primary session, and
      whose sessions before the last were captured. */
  predicate Path(primary: Id, events: seq<Part>, exports: Id -> Export, path: seq<Id>) {
    && path != []
    && path[0] in Discovered(events)
    && (forall i :: 0 <= i < |path| ==> path[i] != primary)
    && (forall i :: 0 <= i < |path| - 1 ==> Captured(exports, path[i]) && path[i + 1] in Children(exports, path[i]))
  }

  function Elements(ids: seq<Id>): set<Id> {
    set id | id in ids
  }

  function Referenced(exports: Id -> Export, from: set<Id>): set<Id> {
    set x, y | x in from && Captured(exports, x) && y in Children(exports, x) :: y
  }

  /** The sessions one more level of discovery reaches. */
  function Next(primary: Id, events: seq<Part>, exports: Id -> Export, from: set<Id>): set<Id> {
    Elements(Discovered(events)) + Referenced(exports, from) - {primary}
  }

  function Reach(primary: Id, events: seq<Part>, exports: Id -> Export, depth: nat): set<Id> {
    if depth == 0 then {} else Next(primary, events, exports, Reach(primary, events, exports, depth - 1))
  }

  lemma {:induction false} ReachGrows(primary: Id, events: seq<Part>, exports: Id -> Export, depth: nat)
    ensures Reach(primary, events, exports, depth) <= Reach(primary, events, exports, depth + 1)
  {
    if depth > 0 {
      ReachGrows(primary, events, exports, depth - 1);
    }
  }

  lemma {:induction false} ReachStable(primary: Id, events: seq<Part>, exports: Id -> Export, depth: nat, more: nat)
    requires depth <= more
    requires Reach(primary, events, exports, depth + 1) == Reach(primary, events, exports, depth)
    ensures Reach(primary, events, exports, more) == Reach(primary, events, exports, depth)
    decreases more
  {
    if depth < more {
      ReachStable(primary, events, exports, depth, more - 1);
    }
  }

  lemma {:induction false} PathsReach(primary: Id, events: seq<Part>, exports: Id -> Export, path: seq<Id>, depth: nat)
    requires Path(primary, events, exports, path) && |path| <= depth
    ensures path[|path| - 1] in Reach(primary, events, exports, depth)
    decreases |path|
  {
    hide Unsafe, Flatten, Discovered, Children;
    if |path| > 1 {
      var front := path[..|path| - 1];
      PathsReach(primary, events, exports, front, depth - 1);
      assert Captured(exports, path[|path| - 2]);
    }
  }

  lemma {:induction false} ReachHasPath(primary: Id, events: seq<Part>, exports: Id -> Export, id: Id, depth: nat)
      returns (path: seq<Id>)
    requires id in Reach(primary, events, exports, depth)
    ensures Path(primary, events, exports, path) && |path| <= depth && path[|path| - 1] == id
    decreases depth
  {
    hide Unsafe, Flatten, Discovered, Captured, Children;
    if id in Discovered(events) {
      path := [id];
    } else {
      var x :| x in Reach(primary, events, exports, depth - 1) && Captured(exports, x) && id in Children(exports, x);
      var front := ReachHasPath(primary, events, exports, x, depth - 1);
      path := front + [id];
    }
  }

  ghost predicate Reachable(primary: Id, events: seq<Part>, exports: Id -> Export, id: Id, depth: nat) {
    exists path :: Path(primary, events, exports, path) && |path| <= depth && path[|path| - 1] == id
  }

  /** The level-by-level sets are exactly the ends of short enough reference chains. */
  lemma ReachIsReachable(primary: Id, events: seq<Part>, exports: Id -> Export, id: Id, depth: nat)
    ensures id in Reach(primary, events, exports, depth) <==> Reachable(primary, events, exports, id, depth)
  {
    if id in Reach(primary, events, exports, depth) {
      var path := ReachHasPath(primary, events, exports, id, depth);
    }
    if Reachable(primary, events, exports, id, depth) {
      var path :| Path(primary, events, exports, path) && |path| <= depth && path[|path| - 1] == id;
      PathsReach(primary, events, exports, path, depth);
    }
  }

  // ---------------------------------------------------------------- captureSessions

  function CapturedOf(exports: Id -> Export, ids: seq<Id>): seq<Id> {
    if ids == [] then []
    else
      var front, last := CapturedOf(exports, ids[..|ids| - 1]), ids[|ids| - 1];
      if Captured(exports, last) then front + [last] else front
  }

  function SafeOf(ids: seq<Id>): seq<Id> {
    if ids == [] then []
    else
      var front, last := SafeOf(ids[..|ids| - 1]), ids[|ids| - 1];
      if Unsafe(last) then front else front + [last]
  }

  /** The capture so far: ids taken on in order, ids whose export was asked for, captured ids, and
      the number of failures. */
  datatype Capture = Capture(attempted: seq<Id>, exported: seq<Id>, children: seq<Id>, failures: nat)

  predicate Consistent(primary: Id, exports: Id -> Export, c: Capture) {
    && Distinct(c.attempted) && primary !in c.attempted
    && c.exported == SafeOf(c.attempted)
    && c.children == CapturedOf(exports, c.attempted)
    && |c.children| + c.failures == |c.attempted|
  }

  lemma AppendOne(exports: Id -> Export, ids: seq<Id>, id: Id)
    ensures CapturedOf(exports, ids + [id]) ==
            CapturedOf(exports, ids) + (if Captured(exports, id) then [id] else [])
    ensures SafeOf(ids + [id]) == SafeOf(ids) + (if Unsafe(id) then [] else [id])
    ensures Distinct(ids) && id !in ids ==> Distinct(ids + [id])
  {
    assert (ids + [id])[..|ids|] == ids;
  }

  /** One newly seen id: refuse it, export it, parse it, write it, and collect its references. */
  method Visit(ghost primary: Id, exports: Id -> Export, id: Id, before: Capture) returns (refs: seq<Id>, after: Capture)
    requires Consistent(primary, exports, before) && id !in before.attempted && id != primary
    ensures Consistent(primary, exports, after) && after.attempted == before.attempted + [id]
    ensures refs == if Captured(exports, id) then Children(exports, id) else []
  {
    AppendOne(exports, before.attempted, id);
    hide Distinct, SafeOf, CapturedOf;
    refs := [];
    after := before.(attempted := before.attempted + [id]);
    if Unsafe(id) {
      after := after.(failures := after.failures + 1);
      return;
    }
    after := after.(exported := after.exported + [id]);
    var data := exports(id);
    if !data.Written? {
      after := after.(failures := after.failures + 1);
      return;
    }
    after := after.(children := after.children + [id]);
    refs := DiscoverInExport(data.messages);
  }

  lemma ReferencedOneMore(exports: Id -> Export, from: set<Id>, id: Id)
    ensures Referenced(exports, from + {id}) ==
            Referenced(exports, from) + (if Captured(exports, id) then Elements(Children(exports, id)) else {})
    ensures Captured(exports, id) ==> "" !in Children(exports, id)
  {
    if Captured(exports, id) {
      DiscoveredIsSound(Flatten(exports(id).messages));
      hide Unsafe;
      var one := Referenced(exports, from + {id});
      forall y | y in Children(exports, id) ensures y in one {
        assert id in from + {id};
      }
    }
  }

  /** Within a level: what the ids looked at so far have added to the attempted and next ones. */
  ghost predicate Gathered(primary: Id, exports: Id -> Export, start: set<Id>, looked: set<Id>, now: set<Id>, next: set<Id>) {
    start <= now && now == start + looked - {primary} && next == Referenced(exports, now - start)
  }

  lemma GatherNone(primary: Id, exports: Id -> Export, start: set<Id>)
    requires primary !in start
    ensures Gathered(primary, exports, start, {}, start, {})
  {
    assert start - start == {};
  }

  lemma GatherOne(primary: Id, exports: Id -> Export, start: set<Id>, looked: set<Id>, now: set<Id>, next: set<Id>, id: Id)
    requires Gathered(primary, exports, start, looked, now, next)
    ensures id in now || id == primary ==> Gathered(primary, exports, start, looked + {id}, now, next)
    ensures id !in now && id != primary ==>
              Gathered(primary, exports, start, looked + {id}, now + {id},
                next + (if Captured(exports, id) then Elements(Children(exports, id)) else {}))
  {
    if id !in now {
      ReferencedOneMore(exports, now - start, id);
      assert now + {id} - start == (now - start) + {id};
    }
  }

  lemma ChildrenHaveNames(exports: Id -> Export, id: Id)
    requires Captured(exports, id)
    ensures "" !in Children(exports, id)
  {
    DiscoveredIsSound(Flatten(exports(id).messages));
  }

  lemma PrimaryIsOutside(primary: Id, exports: Id -> Export, c: Capture)
    requires Consistent(primary, exports, c)
    ensures primary !in Elements(c.attempted)
  {
  }

  /** One level: take on every id not seen before and gather what the captured ones reference. */
  method CaptureLevel(primary: Id, exports: Id -> Export, level: seq<Id>, before: Capture)
      returns (next: seq<Id>, after: Capture)
    requires Consistent(primary, exports, before) && "" !in level
    ensures Consistent(primary, exports, after) && "" !in next
    ensures Gathered(primary, exports, Elements(before.attempted), Elements(level), Elements(after.attempted), Elements(next))
  {
    hide *;
    next, after := [], before;
    var visited := Elements(before.attempted) + (if primary != "" then {primary} else {});
    PrimaryIsOutside(primary, exports, before);
    GatherNone(primary, exports, Elements(before.attempted));
    ElementsAppend([], []);
    assert level[..0] == [];
    for i := 0 to |level|
      invariant visited == Elements(after.attempted) + (if primary != "" then {primary} else {})
      invariant Consistent(primary, exports, after) && "" !in next
      invariant Gathered(primary, exports, Elements(before.attempted), Elements(level[..i]), Elements(after.attempted), Elements(next))
    {
      var id := level[i];
      assert level[..i + 1] == level[..i] + [id];
      ElementsAppend(level[..i], [id]);
      ElementsOf(after.attempted, id);
      GatherOne(primary, exports, Elements(before.attempted), Elements(level[..i]), Elements(after.attempted), Elements(next), id);
      if id == "" || id in visited {
        continue;
      }
      visited := visited + {id};
      ElementsAppend(after.attempted, [id]);
      assert id != primary;
      var refs;
      refs, after := Visit(primary, exports, id, after);
      if Captured(exports, id) {
        ChildrenHaveNames(exports, id);
      }
      ElementsAppend(next, refs);
      ElementsAppend([], []);
      next := next + refs;
    }
    assert level[..|level|] == level;
  }

  lemma ElementsAppend(a: seq<Id>, b: seq<Id>)
    ensures Elements(a + b) == Elements(a) + Elements(b)
    ensures |b| == 1 ==> Elements(b) == {b[0]}
    ensures Elements([]) == {}
  {
  }

  lemma ElementsOf(ids: seq<Id>, id: Id)
    ensures id in ids <==> id in Elements(ids)
  {
  }

  /** Between levels: the attempted ids are those reached at this depth, and the level holds all
      that the next depth adds. */
  ghost predicate AtDepth(primary: Id, events: seq<Part>, exports: Id -> Export, depth: nat, now: set<Id>, level: set<Id>) {
    && now == Reach(primary, events, exports, depth)
    && level <= Elements(Discovered(events)) + Referenced(exports, now)
    && Reach(primary, events, exports, depth + 1) <= now + level
  }

  lemma StartAtZero(primary: Id, events: seq<Part>, exports: Id -> Export)
    ensures AtDepth(primary, events, exports, 0, {}, Elements(Discovered(events)))
  {
    hide Discovered, Captured, Children, Elements;
    assert Referenced(exports, {}) == {};
  }

  /** What the loop over the levels starts from. */
  lemma StartOfCapture(primary: Id, events: seq<Part>, exports: Id -> Export)
    ensures Consistent(primary, exports, Capture([], [], [], 0)) && "" !in Discovered(events)
    ensures AtDepth(primary, events, exports, 0, Elements([]), Elements(Discovered(events)))
  {
    hide AtDepth;
    DiscoveredIsSound(events);
    StartAtZero(primary, events, exports);
    ElementsAppend([], []);
  }

  lemma LevelReaches(primary: Id, events: seq<Part>, exports: Id -> Export, depth: nat,
                     before: set<Id>, level: set<Id>, after: set<Id>, next: set<Id>)
    requires AtDepth(primary, events, exports, depth, before, level)
    requires Gathered(primary, exports, before, level, after, next)
    ensures AtDepth(primary, events, exports, depth + 1, after, next)
  {
    hide Discovered, Captured, Children, Elements;
    ReachGrows(primary, events, exports, depth);
    assert Referenced(exports, after) == Referenced(exports, before) + next;
  }

  /** Whatever the reference graph, cycles included, capture ends; it takes on exactly the sessions
      at most five references away from the event stream through captured sessions, each once,
      never the primary one, asks for each export at most once, and every session taken on is
      either captured or counted as a failure. */
  method CaptureSessions(primary: Id, events: seq<Part>, exports: Id -> Export) returns (capture: Capture)
    ensures forall id :: id in capture.attempted <==> Reachable(primary, events, exports, id, 5)
    ensures Consistent(primary, exports, capture)
  {
    hide *;
    capture := Capture([], [], [], 0);
    var level := DiscoverChildren(events);
    var depth := 0;
    StartOfCapture(primary, events, exports);
    while depth < MAX_SESSION_DEPTH && |level| > 0
      invariant 0 <= depth <= MAX_SESSION_DEPTH
      invariant Consistent(primary, exports, capture) && "" !in level
      invariant AtDepth(primary, events, exports, depth, Elements(capture.attempted), Elements(level))
    {
      ghost var before, now := Elements(capture.attempted), Elements(level);
      level, capture := CaptureLevel(primary, exports, level, capture);
      LevelReaches(primary, events, exports, depth, before, now, Elements(capture.attempted), Elements(level));
      depth := depth + 1;
    }
    AttemptedAreReachable(primary, events, exports, capture.attempted, level, depth);
  }

  lemma AttemptedAreReachable(primary: Id, events: seq<Part>, exports: Id -> Export,
                              attempted: seq<Id>, level: seq<Id>, depth: nat)
    requires depth <= MAX_SESSION_DEPTH && (depth < MAX_SESSION_DEPTH ==> level == [])
    requires AtDepth(primary, events, exports, depth, Elements(attempted), Elements(level))
    ensures forall id :: id in attempted <==> Reachable(primary, events, exports, id, 5)
  {
    hide Captured, Children, Discovered, Referenced, Reachable;
    if depth < MAX_SESSION_DEPTH {
      ReachGrows(primary, events, exports, depth);
      ReachStable(primary, events, exports, depth, MAX_SESSION_DEPTH);
    }
    forall id ensures id in attempted <==> Reachable(primary, events, exports, id, MAX_SESSION_DEPTH) {
      ReachIsReachable(primary, events, exports, id, MAX_SESSION_DEPTH);
      ElementsOf(attempted, id);
    }
  }

  /** An export is asked for at most once per id. */
  lemma {:induction false} ExportedOnce(ids: seq<Id>)
    requires Distinct(ids)
    ensures Distinct(SafeOf(ids)) && forall id :: id in SafeOf(ids) <==> id in ids && !Unsafe(id)
  {
    if ids != [] {
      var front, last := ids[..|ids| - 1], ids[|ids| - 1];
      ExportedOnce(front);
      assert forall id :: id in ids <==> id in front || id == last;
      assert last !in front;
    }
  }

  /** The captured sessions are the attempted ones whose export was written, in order. */
  lemma {:induction false} CapturedAreWritten(exports: Id -> Export, ids: seq<Id>)
    requires Distinct(ids)
    ensures Distinct(CapturedOf(exports, ids))
    ensures forall id :: id in CapturedOf(exports, ids) <==> id in ids && Captured(exports, id)
  {
    if ids != [] {
      var front, last := ids[..|ids| - 1], ids[|ids| - 1];
      CapturedAreWritten(exports, front);
      assert forall id :: id in ids <==> id in front || id == last;
      assert last !in front;
    }
  }
}
