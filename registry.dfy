/** The `LuaSystems` resource, built once when the app initialises it. */
module Registry {
  import opened Assets

  /** The one script path the resource asks the asset server for. */
  const ScriptPath: string := "test.lua"

  /** The asset server, reduced to the id it gives the handle for a path. */
  datatype AssetServer = AssetServer(idFor: string -> AssetId)

  class LuaSystems {
    /** The registry map from asset id to the handle that keeps it loaded. */
    var files: map<AssetId, Handle>

    /** `FromWorld`: starts an empty map and inserts the handle for `test.lua`
        under that handle's own id. */
    constructor FromWorld(server: AssetServer)
      ensures |files| == 1
      ensures files.Keys == {server.idFor(ScriptPath)}
      ensures files[server.idFor(ScriptPath)] == Handle(server.idFor(ScriptPath), ScriptPath)
    {
      var systems: map<AssetId, Handle> := map[];
      var handle := Handle(server.idFor(ScriptPath), ScriptPath);
      systems := systems[handle.id := handle];
      files := systems;
    }
  }
}
