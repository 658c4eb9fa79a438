# piccolo_systems: the script-to-schedule bridge

This project models the bridge in `src/main.rs` that turns Lua script assets
into Bevy systems at run time. Once per tick, in `PreUpdate`,
`update_lua_systems` does three things:

1. It reads the tick's `AssetEvent<LuaFile>` events in order.
2. It collects into a `HashSet` the id of every `Added` event whose bytes the
   `Assets<LuaFile>` store holds.
3. It builds one system per collected id and appends it to the `Update`
   schedule.

A built system captures only its asset id. Each run re-reads the bytes from
the store, loads them into the piccolo Lua VM and executes them. Every failure
is an `unwrap`, so it panics. The project also models the `LuaSystems`
resource built in `from_world` and the asset loader, which passes the file's
bytes through and claims the `lua` extension.

Modules, one per component:

- `Assets`: ids, bytes, `LuaFile`, handles and the five event kinds.
- `Loader`: `LuaScriptLoader`.
- `Registry`: `LuaSystems` and its `from_world`.
- `Scripts`: the built system and one invocation of it. The VM is opaque.
- `Schedule`: `Schedules` as a class whose map from label to systems is
  updated in place.
- `Bridge`: the event loop, the system builder, the schedule inserter and the
  lemmas about them.

The bridge's contract rests on `Bridge.Pending`, a recursive function giving
the pending set of a prefix of events. The drain loop is proved equal to it.
The lemmas show that it depends only on the stored `Added` events, and they
show membership in both directions. A schedule step is described by
`Bridge.AppendsPending`: the old systems are kept as a prefix and exactly one
system is added per pending id.

The model follows what the code does, not a hardened design:

- A run that cannot fetch, load or execute its script is not reported and
  recovered from. It panics through `unwrap`, and so does the model
  (`Invocation.Panicked`). A script that never finishes blocks the tick
  (`Hangs`).
- There is no registry holding at most one system per asset id, with a
  re-added asset replacing its old system and a removed asset dropping it.
  The code only ever appends, and so does the model.
  `Bridge.RepeatedTicksAccumulate` shows that an id that is pending in two
  ticks ends up with two systems.
- Events are not assumed to be read and cleared once. Each tick's events are
  an input, and the model assumes nothing about whether they are seen again.

## Model

| member | source | states |
|---|---|---|
| `Bridge.DrainEvents` | src/main.rs:51-96 | the event loop's set equals `Pending` of the events; x is in it iff some event is `Added(x)` and the store holds bytes for x |
| `Bridge.PendingMembership` | src/main.rs:64-72 | x is pending iff `Added(x)` occurs in the tick and x is in the store, both directions |
| `Bridge.PendingConcat` | src/main.rs:52-94 | the pending set of two stretches of events is the union of theirs: event order and repeated `Added` events do not matter (the collector is a set) |
| `Bridge.PendingSingle` | src/main.rs:64-93 | one event contributes its id exactly when it is `Added` and its bytes are stored |
| `Bridge.NonRegisteringEventIgnored` | src/main.rs:64-92 | inserting a `Modified`, `Removed`, `Unused` or `LoadedWithDependencies` event, or an `Added` event with no stored bytes, anywhere in a tick leaves the pending set unchanged |
| `Bridge.StoredAddedRegisters` | src/main.rs:66-71 | inserting an `Added(x)` with stored bytes anywhere adds exactly x to the pending set; a second such event adds nothing more |
| `Bridge.NoAddedNothingPending` | src/main.rs:73-92 | a tick with no `Added` event leaves the pending set empty, so no system is built |
| `Bridge.BuildSystems` | src/main.rs:98-120 | one system per pending id, each capturing only that id, none twice, no other system; count equals the set's size |
| `Bridge.EnumerationLength` | src/main.rs:98-120 | any batch holding exactly one system per pending id has as many systems as there are pending ids |
| `Bridge.DistinctCount` | src/main.rs:98-120 | a batch without repeats holds each system once or not at all |
| `Bridge.OneSystemPerPendingId` | src/main.rs:98-126 | within one tick, each pending id gets exactly one system, however many `Added` events it had; any other id gets none |
| `Bridge.UpdateLuaSystems` | src/main.rs:48-127 | `Update` keeps its old systems as a prefix and grows by exactly one system per pending id; other schedules are unchanged; an empty pending set changes nothing |
| `Bridge.RepeatedTicksAccumulate` | src/main.rs:122-126 | appending is never a replacement: the old systems stay, and an id pending in two ticks gains two systems |
| `Schedule.Schedules.AddSystem` | src/main.rs:125 | `entry(Update).add_systems` creates the schedule if it is missing and appends one system; every other label is untouched |
| `Scripts.RunSystem` | src/main.rs:108-118 | a missing asset panics; otherwise the bytes stored at that moment are compiled; it panics iff the asset is missing, the bytes do not load, or execution errors; it finishes iff they load and execution completes; it hangs iff they load and execution never returns |
| `Scripts.InvocationReadsCurrentBytes` | src/main.rs:108-109 | each invocation compiles the bytes stored at that moment, so changed bytes change what the next invocation compiles |
| `Scripts.InvocationDependsOnOwnEntry` | src/main.rs:100-109 | an invocation depends on the store only through the entry for its captured id |
| `Registry.LuaSystems.FromWorld` | src/main.rs:36-45 | the registry map has exactly one entry, keyed by the id of the handle for `test.lua` and holding that handle |
| `Loader.Load` | src/main.rs:159-168 | the asset's bytes are exactly the bytes read; a read error becomes the loader's `Io` error |
| `Loader.Extensions` | src/main.rs:170-172 | the loader claims exactly one extension, `lua` |

## Left out

- App bootstrap (src/main.rs:11-29): plugin setup, registering the system, asset type and loader, inserting the VM, and `app.run()`. These are library set-up.
- `SystemState`, `ParamBuilder` and `build_system`: only their effect is modelled. A system tagged with its id is built and appended.
- Missing resources: the `unwrap` on `get_resource::<AssetServer>()` and on `get_resource_mut::<Schedules>()`, and `SystemState::get_mut` on a world without one of its resources. `AssetServer` comes from the default plugins (src/main.rs:13-16), `Schedules` from `App` itself, `Assets<LuaFile>` and its `AssetEvent` events from `init_asset` (src/main.rs:20), and `LuaVm` from `insert_non_send_resource` (src/main.rs:24), so all of them exist when the system runs.
- Event-reader cursor semantics: the tick's events are a parameter.
- The `HashSet`'s iteration order: each build step takes an arbitrary id not yet taken.
- Scripts.RunSystem: the piccolo VM is two functions of the bytes: whether they load, and whether execution completes, errors or never returns. A script that never returns blocks the tick; the model records that as `Hangs` and does not model the blocking itself. The VM state that a run changes, and any side effects of the script, are not modelled.
- Non-`Send` confinement of the VM: it is a matter of threading, not of logic.
- The host scheduler running the `Update` systems, including how one system's panic ends the app.
- Registry.LuaSystems.FromWorld: the asset server is reduced to the id it gives a path. The asynchronous load it starts is not modelled. `update_lua_systems` never reads this map.
- Loader.Load: the asynchronous, chunked `read_to_end` is one read outcome.
- All `println!` logging, including the logging of non-`Added` events whose bytes are stored.
