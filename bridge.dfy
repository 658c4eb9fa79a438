/** `update_lua_systems`: once per tick, turn the asset events seen this tick
    into new systems appended to the `Update` schedule. */
module Bridge {
  import opened Assets
  import opened Scripts
  import opened Schedule

  /** An event puts its id into the pending set exactly when it is `Added`
      and the store holds bytes for that id. */
  predicate Registers(e: AssetEvent, luaFiles: LuaFiles)
  {
    e.Added? && e.id in luaFiles
  }

  /** The pending set after classifying `events` in order against `luaFiles`. */
  function Pending(events: seq<AssetEvent>, luaFiles: LuaFiles): (s: set<AssetId>)
    decreases |events|
  {
    if events == [] then {}
    else
      var last := events[|events| - 1];
      Pending(events[..|events| - 1], luaFiles) + (if Registers(last, luaFiles) then {last.id} else {})
  }

  /** Classifying two stretches of events one after the other is the union
      of classifying each: order and repetition do not matter. */
  lemma {:induction false} PendingConcat(a: seq<AssetEvent>, b: seq<AssetEvent>, luaFiles: LuaFiles)
    ensures Pending(a + b, luaFiles) == Pending(a, luaFiles) + Pending(b, luaFiles)
    decreases |b|
  {
    if b == [] {
      assert a + b == a;
    } else {
      assert (a + b)[..|a + b| - 1] == a + b[..|b| - 1];
      PendingConcat(a, b[..|b| - 1], luaFiles);
    }
  }

  /** An id is pending iff some event of the tick is `Added` for it and the
      store holds its bytes. */
  lemma {:induction false} PendingMembership(events: seq<AssetEvent>, luaFiles: LuaFiles, x: AssetId)
    ensures x in Pending(events, luaFiles) <==> Added(x) in events && x in luaFiles
    decreases |events|
  {
    if events != [] {
      var init := events[..|events| - 1];
      assert events == init + [events[|events| - 1]];
      PendingMembership(init, luaFiles, x);
    }
  }

  /** The pending set of a single event. */
  lemma PendingSingle(e: AssetEvent, luaFiles: LuaFiles)
    ensures Pending([e], luaFiles) == if Registers(e, luaFiles) then {e.id} else {}
  {
    assert [e][..0] == [];
  }

  /** `Modified`, `Removed`, `Unused` and `LoadedWithDependencies` events, and
      `Added` events whose id has no stored bytes, contribute nothing,
      wherever they occur in the tick. */
  lemma NonRegisteringEventIgnored(a: seq<AssetEvent>, e: AssetEvent, b: seq<AssetEvent>, luaFiles: LuaFiles)
    requires !e.Added? || e.id !in luaFiles
    ensures Pending(a + [e] + b, luaFiles) == Pending(a + b, luaFiles)
  {
    PendingConcat(a + [e], b, luaFiles);
    PendingConcat(a, [e], luaFiles);
    PendingConcat(a, b, luaFiles);
    PendingSingle(e, luaFiles);
  }

  /** An `Added` event whose bytes are stored adds its id, and only its id. */
  lemma StoredAddedRegisters(a: seq<AssetEvent>, x: AssetId, b: seq<AssetEvent>, luaFiles: LuaFiles)
    requires x in luaFiles
    ensures Pending(a + [Added(x)] + b, luaFiles) == Pending(a + b, luaFiles) + {x}
  {
    PendingConcat(a + [Added(x)], b, luaFiles);
    PendingConcat(a, [Added(x)], luaFiles);
    PendingConcat(a, b, luaFiles);
    PendingSingle(Added(x), luaFiles);
  }

  /** A tick without any `Added` event leaves nothing pending. */
  lemma NoAddedNothingPending(events: seq<AssetEvent>, luaFiles: LuaFiles)
    requires forall i :: 0 <= i < |events| ==> !events[i].Added?
    ensures Pending(events, luaFiles) == {}
  {
    forall x ensures x !in Pending(events, luaFiles) {
      PendingMembership(events, luaFiles, x);
    }
  }

  /** The event loop: walks the tick's events in order and collects, in a
      set, the id of every `Added` event whose bytes the store holds. */
  method DrainEvents(events: seq<AssetEvent>, luaFiles: LuaFiles) returns (systems: set<AssetId>)
    ensures systems == Pending(events, luaFiles)
    ensures forall x :: x in systems <==> Added(x) in events && x in luaFiles
  {
    systems := {};
    for k := 0 to |events|
      invariant systems == Pending(events[..k], luaFiles)
    {
      assert events[..k + 1][..k] == events[..k];
      match events[k]
      case Added(id) =>
        if id in luaFiles {
          systems := systems + {id};
        }
      case Modified(_) =>          // only logged
      case Removed(_) =>           // only logged
      case Unused(_) =>            // only logged
      case LoadedWithDependencies(_) =>  // only logged
    }
    assert events[..|events|] == events;
    forall x ensures x in systems <==> Added(x) in events && x in luaFiles {
      PendingMembership(events, luaFiles, x);
    }
  }

  /** No system occurs twice. */
  predicate Distinct(systems: seq<System>)
  {
    forall i, j :: 0 <= i < j < |systems| ==> systems[i] != systems[j]
  }

  /** `systems` holds exactly one script system for each id in `ids` and nothing else. */
  predicate Enumerates(systems: seq<System>, ids: set<AssetId>)
  {
    && Distinct(systems)
    && (forall s :: s in systems ==> s.Lua? && s.unit.id in ids)
    && (forall x :: x in ids ==> Lua(LuaUnit(x)) in systems)
  }

  /** The `map(..).collect()` over the pending set: one system per id, each
      capturing only that id. The set's iteration order is unspecified, so
      each step takes an arbitrary id not yet taken. */
  method BuildSystems(pending: set<AssetId>) returns (systems: seq<System>)
    ensures |systems| == |pending|
    ensures Enumerates(systems, pending)
  {
    systems := [];
    var rest := pending;
    while rest != {}
      invariant rest <= pending
      invariant |systems| + |rest| == |pending|
      invariant Distinct(systems)
      invariant forall s :: s in systems ==> s.Lua? && s.unit.id in pending - rest
      invariant forall x :: x in pending - rest ==> Lua(LuaUnit(x)) in systems
      decreases |rest|
    {
      var id :| id in rest;
      systems := systems + [Lua(LuaUnit(id))];
      rest := rest - {id};
    }
  }

  /** The number of systems in an enumeration is the number of ids. */
  lemma {:induction false} EnumerationLength(systems: seq<System>, ids: set<AssetId>)
    requires Enumerates(systems, ids)
    ensures |systems| == |ids|
    decreases |systems|
  {
    if systems == [] {
      assert forall x :: x !in ids;
      assert ids == {};
    } else {
      var n := |systems| - 1;
      var last := systems[n];
      var init := systems[..n];
      var rest := ids - {last.unit.id};
      assert last in systems;
      forall s | s in init ensures s.Lua? && s.unit.id in rest {
        var i :| 0 <= i < n && init[i] == s;
        assert systems[i] == s && systems[i] != systems[n];
        assert s == Lua(LuaUnit(s.unit.id));
      }
      forall x | x in rest ensures Lua(LuaUnit(x)) in init {
        assert Lua(LuaUnit(x)) in systems;
        var i :| 0 <= i < |systems| && systems[i] == Lua(LuaUnit(x));
        assert i != n;
        assert init[i] == systems[i];
      }
      EnumerationLength(init, rest);
    }
  }

  /** A system without duplicates holds each value once or not at all. */
  lemma {:induction false} DistinctCount(systems: seq<System>, v: System)
    requires Distinct(systems)
    ensures multiset(systems)[v] == if v in systems then 1 else 0
    decreases |systems|
  {
    if systems != [] {
      var n := |systems| - 1;
      var init := systems[..n];
      assert systems == init + [systems[n]];
      DistinctCount(init, v);
      if v == systems[n] {
        assert v !in init by {
          forall i | 0 <= i < n ensures init[i] != v {
            assert systems[i] != systems[n];
          }
        }
      }
    }
  }

  /** Within one tick's batch, each pending id gets exactly one system, however
      many `Added` events it had, and every other id gets none. */
  lemma OneSystemPerPendingId(systems: seq<System>, ids: set<AssetId>, x: AssetId)
    requires Enumerates(systems, ids)
    ensures multiset(systems)[Lua(LuaUnit(x))] == if x in ids then 1 else 0
  {
    DistinctCount(systems, Lua(LuaUnit(x)));
  }

  /** A schedule step: `after` keeps `before` as it was and appends one system
      per pending id. */
  predicate AppendsPending(before: seq<System>, after: seq<System>, pending: set<AssetId>)
  {
    |before| <= |after| && after[..|before|] == before && Enumerates(after[|before|..], pending)
  }

  /** `update_lua_systems`: drain the tick's events, build one system per
      pending id and append each to the `Update` schedule. Nothing is removed
      or replaced, and no other schedule changes. */
  method UpdateLuaSystems(events: seq<AssetEvent>, luaFiles: LuaFiles, schedules: Schedules)
    modifies schedules
    ensures AppendsPending(old(schedules.Systems(Update)), schedules.Systems(Update), Pending(events, luaFiles))
    ensures |schedules.Systems(Update)| == |old(schedules.Systems(Update))| + |Pending(events, luaFiles)|
    ensures forall l :: l != Update ==> schedules.Systems(l) == old(schedules.Systems(l))
    ensures forall l :: l != Update ==> (l in schedules.entries <==> l in old(schedules.entries))
    ensures Pending(events, luaFiles) == {} ==> schedules.entries == old(schedules.entries)
  {
    var pending := DrainEvents(events, luaFiles);
    var systems := BuildSystems(pending);
    ghost var before := schedules.Systems(Update);
    for k := 0 to |systems|
      invariant schedules.Systems(Update) == before + systems[..k]
      invariant forall l :: l != Update ==> schedules.Systems(l) == old(schedules.Systems(l))
      invariant forall l :: l != Update ==> (l in schedules.entries <==> l in old(schedules.entries))
      invariant k == 0 ==> schedules.entries == old(schedules.entries)
    {
      schedules.AddSystem(Update, systems[k]);
      assert systems[..k + 1] == systems[..k] + [systems[k]];
    }
    assert systems[..|systems|] == systems;
    assert schedules.Systems(Update)[|before|..] == systems;
  }

  /** Ids are never de-duplicated across ticks: an id pending in two ticks ends
      up with two systems in `Update`, on top of whatever was there before. */
  lemma RepeatedTicksAccumulate(s0: seq<System>, s1: seq<System>, s2: seq<System>,
                                p1: set<AssetId>, p2: set<AssetId>, x: AssetId)
    requires AppendsPending(s0, s1, p1) && AppendsPending(s1, s2, p2)
    ensures |s0| <= |s2| && s2[..|s0|] == s0
    ensures multiset(s2)[Lua(LuaUnit(x))] ==
              multiset(s0)[Lua(LuaUnit(x))] + (if x in p1 then 1 else 0) + (if x in p2 then 1 else 0)
  {
    assert s1 == s0 + s1[|s0|..];
    assert s2 == s1 + s2[|s1|..];
    OneSystemPerPendingId(s1[|s0|..], p1, x);
    OneSystemPerPendingId(s2[|s1|..], p2, x);
  }
}
