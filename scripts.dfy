/** The system built for one Lua script, and what running it does. */
module Scripts {
  import opened Assets

  /** A built system: the closure captures the asset id and nothing else. */
  datatype LuaUnit = LuaUnit(id: AssetId)

  /** How stepping a loaded closure to completion ends. */
  datatype Execution = Completes | Errors | NeverReturns

  /** The Lua VM, kept opaque: whether a chunk of bytes loads as a closure,
      and how executing that closure ends. */
  datatype LuaVm = LuaVm(loads: seq<Byte> -> bool, execution: seq<Byte> -> Execution)

  /** How far one invocation got once it had its bytes. */
  datatype RunOutcome =
    | LoadPanic      // `try_enter(..).unwrap()` on a load error
    | ExecutePanic   // `execute(..).unwrap()` on a runtime error
    | Hangs          // `execute` never returns: the tick blocks
    | Finished

  /** One invocation of a built system. */
  datatype Invocation =
    | MissingAssetPanic                             // `lua_files.get(id).unwrap()` on `None`
    | Fetched(source: seq<Byte>, outcome: RunOutcome)
  {
    /** The invocation ends in an `unwrap` panic. */
    predicate Panicked()
    {
      MissingAssetPanic? || outcome == LoadPanic || outcome == ExecutePanic
    }
  }

  /** Runs the system for `unit` against the store as it is at this moment. */
  function RunSystem(unit: LuaUnit, luaFiles: LuaFiles, vm: LuaVm): (r: Invocation)
    ensures r.MissingAssetPanic? <==> unit.id !in luaFiles
    ensures r.Fetched? ==> r.source == luaFiles[unit.id].bytes
    ensures r.Fetched? ==> (r.outcome == LoadPanic <==> !vm.loads(r.source))
    ensures r.Panicked() <==>
              || unit.id !in luaFiles
              || !vm.loads(luaFiles[unit.id].bytes)
              || vm.execution(luaFiles[unit.id].bytes) == Errors
    ensures (r.Fetched? && r.outcome == Finished) <==>
              unit.id in luaFiles && vm.loads(luaFiles[unit.id].bytes) && vm.execution(luaFiles[unit.id].bytes) == Completes
    ensures (r.Fetched? && r.outcome == Hangs) <==>
              unit.id in luaFiles && vm.loads(luaFiles[unit.id].bytes) && vm.execution(luaFiles[unit.id].bytes) == NeverReturns
  {
    if unit.id !in luaFiles then
      MissingAssetPanic
    else
      var bytes := luaFiles[unit.id].bytes;
      if !vm.loads(bytes) then Fetched(bytes, LoadPanic)
      else
        match vm.execution(bytes)
        case Errors => Fetched(bytes, ExecutePanic)
        case NeverReturns => Fetched(bytes, Hangs)
        case Completes => Fetched(bytes, Finished)
  }

  /** A system holds no copy of its script: two invocations against stores
      that hold different bytes for its id compile different bytes, each the
      bytes stored at that moment. */
  lemma InvocationReadsCurrentBytes(unit: LuaUnit, before: LuaFiles, after: LuaFiles, vm: LuaVm)
    requires unit.id in before && unit.id in after
    ensures RunSystem(unit, before, vm).source == before[unit.id].bytes
    ensures RunSystem(unit, after, vm).source == after[unit.id].bytes
    ensures before[unit.id].bytes != after[unit.id].bytes ==>
              RunSystem(unit, before, vm).source != RunSystem(unit, after, vm).source
  {
  }

  /** What an invocation does depends on the store only through the entry
      for the system's own id. */
  lemma InvocationDependsOnOwnEntry(unit: LuaUnit, s1: LuaFiles, s2: LuaFiles, vm: LuaVm)
    requires unit.id in s1 <==> unit.id in s2
    requires unit.id in s1 ==> s1[unit.id] == s2[unit.id]
    ensures RunSystem(unit, s1, vm) == RunSystem(unit, s2, vm)
  {
  }
}
